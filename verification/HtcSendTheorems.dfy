/** What holds over every run of the send protocol. */
module HtcSendTheorems {
  import opened CreditMath
  import opened HtcSendSpec
  import opened HtcSendConn
  import opened HtcSendProtocol

  ghost predicate IsRun(cfg: Config, states: seq<State>, steps: seq<Step>) {
    && |states| == |steps| + 1 && cfg.Valid() && Init(cfg, states[0])
    && (forall i :: 0 <= i < |steps| ==>
          && |states[i].conns| == ENDPOINT_MAX && Enabled(cfg, states[i], steps[i])
          && states[i + 1] == Apply(cfg, states[i], steps[i]))
  }

  lemma {:induction false} RunOk(cfg: Config, states: seq<State>, steps: seq<Step>, k: nat)
    requires IsRun(cfg, states, steps) && k <= |steps|
    ensures Inv(cfg, states[k])
    ensures forall e: nat :: e < ENDPOINT_MAX ==>
      states[k].conns[e].budget == states[0].conns[e].budget
        && states[k].conns[e].ep.share == states[0].conns[e].ep.share
  {
    if k == 0 {
      InitOk(cfg, states[0]);
    } else {
      RunOk(cfg, states, steps, k - 1);
      StepOk(cfg, states[k - 1], steps[k - 1]);
      BudgetFixed(cfg, states[k - 1], steps[k - 1]);
    }
  }

  lemma BudgetFixed(cfg: Config, s: State, step: Step)
    requires |s.conns| == ENDPOINT_MAX && Enabled(cfg, s, step)
    ensures forall e: nat :: e < ENDPOINT_MAX ==>
      Apply(cfg, s, step).conns[e].budget == s.conns[e].budget
        && Apply(cfg, s, step).conns[e].ep.share == s.conns[e].ep.share
  {
  }

  /** The queue held by the thread draining e, if there is one. */
  ghost function LocalOf(s: State, e: nat): seq<Issued>
  {
    if exists t: nat :: Drains(s, t, e) then
      var t: nat :| Drains(s, t, e);
      s.threads[t].pc.local
    else []
  }

  lemma LocalOfIsLocal(s: State, e: nat)
    requires |s.conns| == ENDPOINT_MAX && DrainersOk(s) && e < ENDPOINT_MAX
    requires s.conns[e].ep.processCount == 0 ==> |s.conns[e].handed| == |s.conns[e].taken|
    requires s.conns[e].ep.processCount == 0 || s.conns[e].ep.processCount == 1
    requires |s.conns[e].handed| <= |s.conns[e].taken|
    ensures LocalOf(s, e) == Local(s.conns[e])
  {
  }

  /** Credits of endpoint e that are with the target or on their way there. */
  ghost function InFlight(s: State, e: nat): nat
    requires |s.conns| == ENDPOINT_MAX && e < ENDPOINT_MAX
  {
    Sum(LocalOf(s, e)) + Sum(s.conns[e].inDevice) + s.conns[e].owed
  }

  /** Credit conservation over every interleaving. Credits wait for distribution only
      inside a lock-held section. */
  lemma CreditsAreConserved(cfg: Config, states: seq<State>, steps: seq<Step>, k: nat, e: nat)
    requires IsRun(cfg, states, steps) && k <= |steps| && e < ENDPOINT_MAX
    ensures |states[k].conns| == ENDPOINT_MAX
    ensures var ep := states[k].conns[e].ep;
      && 0 <= ep.credits && 0 <= ep.toDist
      && ep.credits + ep.toDist + InFlight(states[k], e) == states[0].conns[e].ep.credits + states[0].conns[e].owed
      && (InDistribution(cfg, e) ==> ep.toDist == 0 && states[0].conns[e].owed == 0)
  {
    RunOk(cfg, states, steps, k);
    LocalOfIsLocal(states[k], e);
    assert Fresh(states[0].conns[e]);
  }

  /** An endpoint that starts with all the credits assigned to it: those at hand and those in
      flight always add up to what is assigned. */
  lemma AssignedCreditsAreConserved(cfg: Config, states: seq<State>, steps: seq<Step>, k: nat, e: nat)
    requires IsRun(cfg, states, steps) && k <= |steps| && e < ENDPOINT_MAX && InDistribution(cfg, e)
    requires |states[0].conns| == ENDPOINT_MAX && states[0].conns[e].ep.credits == states[0].conns[e].ep.share
    ensures |states[k].conns| == ENDPOINT_MAX
    ensures var ep := states[k].conns[e].ep; 0 <= ep.credits && ep.credits + InFlight(states[k], e) == ep.share
  {
    RunOk(cfg, states, steps, k);
    CreditsAreConserved(cfg, states, steps, k, e);
  }

  lemma Endpoint0Step(cfg: Config, s: State, step: Step)
    requires cfg.Valid() && |s.conns| == ENDPOINT_MAX && Enabled(cfg, s, step)
    requires s.conns[0].ep.toDist == Sum(s.conns[0].failed)
    ensures Apply(cfg, s, step).conns[0].ep.toDist == Sum(Apply(cfg, s, step).conns[0].failed)
  {
    assert !InDistribution(cfg, 0);
    if step.FailSend? && step.e == 0 {
      var p := s.conns[0].inDevice[step.i];
      SumConcat(s.conns[0].failed, [p]);
      assert [p][1..] == [] && Sum([p]) == p.creditsUsed + Sum([]);
    }
  }

  /** Distribution leaves endpoint 0 out, so the credits of its failed packets are never
      usable again: they pile up undistributed. */
  lemma {:induction false} Endpoint0LosesFailedCredits(cfg: Config, states: seq<State>, steps: seq<Step>, k: nat)
    requires IsRun(cfg, states, steps) && k <= |steps|
    ensures |states[k].conns| == ENDPOINT_MAX && states[k].conns[0].ep.toDist == Sum(states[k].conns[0].failed)
  {
    if k == 0 {
      assert Fresh(states[0].conns[0]);
    } else {
      Endpoint0LosesFailedCredits(cfg, states, steps, k - 1);
      Endpoint0Step(cfg, states[k - 1], steps[k - 1]);
    }
  }

  /** Credits in flight on the endpoints named by a list. */
  ghost function TotalInFlight(s: State, list: seq<nat>): nat
    requires |s.conns| == ENDPOINT_MAX && forall i :: 0 <= i < |list| ==> list[i] < ENDPOINT_MAX
  {
    if list == [] then 0 else InFlight(s, list[0]) + TotalInFlight(s, list[1..])
  }

  lemma InFlightWithinShare(cfg: Config, states: seq<State>, steps: seq<Step>, k: nat, e: nat, share: nat)
    requires IsRun(cfg, states, steps) && k <= |steps| && |states[k].conns| == ENDPOINT_MAX
    requires e < ENDPOINT_MAX && InDistribution(cfg, e) && states[0].conns[e].ep.credits <= share
    ensures InFlight(states[k], e) <= share
  {
    CreditsAreConserved(cfg, states, steps, k, e);
  }

  lemma {:induction false} InFlightAddsUp(s: State, list: seq<nat>, share: nat)
    requires |s.conns| == ENDPOINT_MAX && forall i :: 0 <= i < |list| ==> list[i] < ENDPOINT_MAX
    requires forall i :: 0 <= i < |list| ==> InFlight(s, list[i]) <= share
    ensures TotalInFlight(s, list) <= |list| * share
  {
    if list != [] {
      InFlightAddsUp(s, list[1..], share);
      MulSucc(|list| - 1, share);
    }
  }

  /** With initial shares that are even at most, the listed endpoints together never have more credits
      outstanding than the target offered. */
  lemma TargetIsNeverOverrun(cfg: Config, states: seq<State>, steps: seq<Step>, k: nat, targetCredits: nat)
    requires IsRun(cfg, states, steps) && k <= |steps| && 1 < |cfg.distList|
    requires forall i :: 1 <= i < |cfg.distList| ==>
      states[0].conns[cfg.distList[i]].ep.credits <= targetCredits / (|cfg.distList| - 1)
    ensures |states[k].conns| == ENDPOINT_MAX
    ensures TotalInFlight(states[k], cfg.distList[1..]) <= targetCredits
  {
    RunOk(cfg, states, steps, k);
    var list := cfg.distList[1..];
    var share := targetCredits / |list|;
    forall i | 0 <= i < |list|
      ensures list[i] < ENDPOINT_MAX && InDistribution(cfg, list[i]) && states[0].conns[list[i]].ep.credits <= share
    {
      assert list[i] == cfg.distList[i + 1];
    }
    forall i | 0 <= i < |list|
      ensures InFlight(states[k], list[i]) <= share
    {
      InFlightWithinShare(cfg, states, steps, k, list[i], share);
    }
    InFlightAddsUp(states[k], list, share);
    EvenShares(targetCredits, |list|);
  }

  /** At most one thread drains an endpoint, and TxProcessCount says whether one does. */
  lemma SingleDrainer(cfg: Config, states: seq<State>, steps: seq<Step>, k: nat, e: nat)
    requires IsRun(cfg, states, steps) && k <= |steps| && e < ENDPOINT_MAX
    ensures |states[k].conns| == ENDPOINT_MAX
    ensures forall t: nat, u: nat :: Drains(states[k], t, e) && Drains(states[k], u, e) ==> t == u
    ensures states[k].conns[e].ep.processCount == if exists t: nat :: Drains(states[k], t, e) then 1 else 0
  {
    RunOk(cfg, states, steps, k);
  }

  /** Accepted packets are handed to the device exactly once and in order: what the device
      got, what the drainer holds and what is queued make up what was accepted. Packets
      carry consecutive sequence numbers and the credits they cost. */
  lemma ExactlyOnceInOrder(cfg: Config, states: seq<State>, steps: seq<Step>, k: nat, e: nat)
    requires IsRun(cfg, states, steps) && k <= |steps| && e < ENDPOINT_MAX
    ensures |states[k].conns| == ENDPOINT_MAX
    ensures var c := states[k].conns[e];
      && (c.flushed == [] ==> c.accepted == Pkts(c.handed) + Pkts(LocalOf(states[k], e)) + c.ep.txQueue)
      && multiset(c.accepted) == multiset(Pkts(c.handed)) + multiset(Pkts(LocalOf(states[k], e)))
                                 + multiset(c.ep.txQueue) + multiset(c.flushed)
      && multiset(c.handed) == multiset(c.inDevice) + multiset(c.delivered) + multiset(c.failed)
      && (forall i :: 0 <= i < |c.handed| ==>
        c.handed[i].seqNo == i % 256 && c.handed[i].creditsUsed == cfg.cost(c.handed[i].pkt))
  {
    RunOk(cfg, states, steps, k);
    var c := states[k].conns[e];
    LocalOfIsLocal(states[k], e);
    assert c.taken == c.handed + Local(c);
    assert Pkts(c.taken) == Pkts(c.handed) + Pkts(Local(c));
    forall i | 0 <= i < |c.handed|
      ensures c.handed[i].seqNo == i % 256 && c.handed[i].creditsUsed == cfg.cost(c.handed[i].pkt)
    {
      assert c.handed[i] == c.taken[i];
    }
  }

  /** What callers have brought for e so far. */
  function Submitted(steps: seq<Step>, e: nat): seq<Packet>
  {
    if steps == [] then []
    else Submitted(steps[..|steps| - 1], e) + BroughtIn(steps[|steps| - 1], e)
  }

  lemma {:induction false} NobodyBrings(threads: seq<Thread>, e: nat)
    requires forall t :: 0 <= t < |threads| ==> threads[t] == Thread(Out, [])
    ensures Brought(threads, e) == multiset{}
  {
    if threads != [] { NobodyBrings(threads[1..], e); }
  }

  /** In every state of every run, the packets callers brought for an endpoint are those it has
      accepted and those that wait with their callers for its lock. */
  lemma {:induction false} SubmittedAreAccepted(cfg: Config, states: seq<State>, steps: seq<Step>, k: nat, e: nat)
    requires IsRun(cfg, states, steps) && k <= |steps| && e < ENDPOINT_MAX
    ensures |states[k].conns| == ENDPOINT_MAX
    ensures multiset(Submitted(steps[..k], e))
         == multiset(states[k].conns[e].accepted) + Brought(states[k].threads, e)
  {
    if k == 0 {
      assert Fresh(states[0].conns[e]);
      NobodyBrings(states[0].threads, e);
    } else {
      SubmittedAreAccepted(cfg, states, steps, k - 1, e);
      StepBrings(cfg, states[k - 1], steps[k - 1], e);
      assert steps[..k][..k - 1] == steps[..k - 1];
    }
  }

  // --- wake-ups ---------------------------------------------------------------------

  /** No lost wake-up: in every state of every run, an endpoint has a packet that could be sent
      and nobody to send it exactly when some failed send or selective flush uncovered that
      packet and the endpoint has been so ever since. */
  lemma {:induction false} NoLostWakeup(cfg: Config, states: seq<State>, steps: seq<Step>, k: nat, e: nat)
    requires IsRun(cfg, states, steps) && k <= |steps| && e < ENDPOINT_MAX
    ensures forall j :: 0 <= j <= k ==> |states[j].conns| == ENDPOINT_MAX
    ensures Stranded(cfg, states[k], e) <==>
      exists i :: 0 <= i < k && Uncovers(cfg, states[i], steps[i], e)
        && forall j :: i < j <= k ==> Stranded(cfg, states[j], e)
  {
    if k == 0 {
      assert Fresh(states[0].conns[e]);
    } else {
      NoLostWakeup(cfg, states, steps, k - 1, e);
      RunOk(cfg, states, steps, k - 1);
      OnlyUncoveringStrands(cfg, states[k - 1], steps[k - 1], e);
      if Stranded(cfg, states[k], e) && !Uncovers(cfg, states[k - 1], steps[k - 1], e) {
        var i :| 0 <= i < k - 1 && Uncovers(cfg, states[i], steps[i], e)
          && forall j :: i < j <= k - 1 ==> Stranded(cfg, states[j], e);
        assert forall j :: i < j <= k ==> Stranded(cfg, states[j], e);
      }
    }
  }

  predicate MayStrand(step: Step) {
    step.FailSend? || (step.Flush? && step.tag != 0)
  }

  /** Without those two kinds of steps no endpoint is ever stranded. */
  lemma NobodyStranded(cfg: Config, states: seq<State>, steps: seq<Step>, k: nat, e: nat)
    requires IsRun(cfg, states, steps) && k <= |steps| && e < ENDPOINT_MAX
    requires forall i :: 0 <= i < k ==> !MayStrand(steps[i])
    ensures |states[k].conns| == ENDPOINT_MAX && !Stranded(cfg, states[k], e)
  {
    NoLostWakeup(cfg, states, steps, k, e);
    if Stranded(cfg, states[k], e) {
      var i :| 0 <= i < k && Uncovers(cfg, states[i], steps[i], e);
      assert !MayStrand(steps[i]);
      FlushIdle(states[i].conns[e].ep.txQueue, 0);
    }
  }

  ghost predicate Quiet(s: State) {
    forall t: nat :: t < |s.threads| ==> s.threads[t] == Thread(Out, [])
  }

  /** On runs without those two events: once the threads are quiet and the endpoint's
      credits are all home, its queue is empty unless the head packet costs more than the
      endpoint was ever given. */
  lemma QuietMeansDrained(cfg: Config, states: seq<State>, steps: seq<Step>, k: nat, e: nat)
    requires IsRun(cfg, states, steps) && k <= |steps|
    requires forall i :: 0 <= i < k ==> !MayStrand(steps[i])
    requires InDistribution(cfg, e) && e < ENDPOINT_MAX && Quiet(states[k])
    requires |states[k].conns| == ENDPOINT_MAX && states[k].conns[e].inDevice == [] && states[k].conns[e].owed == 0
    ensures var q := states[k].conns[e].ep.txQueue; q == [] || states[0].conns[e].ep.credits < cfg.cost(q[0])
  {
    NobodyStranded(cfg, states, steps, k, e);
    SingleDrainer(cfg, states, steps, k, e);
    CreditsAreConserved(cfg, states, steps, k, e);
  }

  /** With credits charged by length, a head packet no longer than the share the endpoint
      was granted per maximum message cannot be the one that stays behind. */
  lemma QuietMeansDrainedByLength(cfg: Config, states: seq<State>, steps: seq<Step>, k: nat, e: nat,
                                  creditSize: nat, block: nat, perMaxMsg: nat)
    requires 0 < creditSize && 0 < block && cfg.ChargesByLength(creditSize, block)
    requires IsRun(cfg, states, steps) && k <= |steps|
    requires forall i :: 0 <= i < k ==> !MayStrand(steps[i])
    requires InDistribution(cfg, e) && e < ENDPOINT_MAX && Quiet(states[k])
    requires |states[k].conns| == ENDPOINT_MAX && states[k].conns[e].inDevice == [] && states[k].conns[e].owed == 0
    requires 1 <= perMaxMsg <= states[0].conns[e].ep.credits
    ensures var q := states[k].conns[e].ep.txQueue;
      q == [] || perMaxMsg * creditSize < PaddedLength(q[0].length + HTC_HDR_LENGTH, block)
  {
    QuietMeansDrained(cfg, states, steps, k, e);
    var q := states[k].conns[e].ep.txQueue;
    if q != [] {
      assert cfg.cost(q[0]) == ChargeOf(q[0], creditSize, block);
      CreditsRequiredIsLeast(PaddedLength(q[0].length + HTC_HDR_LENGTH, block), creditSize, perMaxMsg);
    }
  }

  // --- both situations are reachable: one thread, one endpoint, credits of 128 bytes --------------

  const SMALL := Packet(1, 1, 1)
  const NEXT := Packet(2, 1, 2)
  const LARGE := Packet(3, 200, 1)
  const ISSUED := Issued(SMALL, 1, 0, true)
  const UNUSED := Conn(Ep([], 1, 0, 1, 1, 0, 0), [], [], [], [], [], [], [], 0, 1)

  ghost function Charging(e: nat): Config
  {
    Config(p => ChargeOf(p, 128, 32), [0, e])
  }

  lemma Charges(e: nat)
    ensures Charging(e).ChargesByLength(128, 32)
    ensures Charging(e).cost(SMALL) == Charging(e).cost(NEXT) == 1 && Charging(e).cost(LARGE) == 2
    ensures 0 < e < ENDPOINT_MAX ==> Charging(e).Valid() && InDistribution(Charging(e), e)
  {
    QuotientIs(38, 32, 1);
    QuotientIs(237, 32, 7);
    QuotientIs(224, 128, 1);
    assert Charging(e).distList[1] == e;
  }

  ghost function Lone(e: nat, c: Conn, pc: Pc): State
  {
    State(seq(ENDPOINT_MAX, j => if j == e then c else UNUSED), [Thread(pc, [])])
  }

  lemma LoneUpdate(e: nat, c: Conn, pc: Pc, d: Conn, qc: Pc)
    requires e < ENDPOINT_MAX
    ensures SetConn(Lone(e, c, pc), e, d) == Lone(e, d, pc)
    ensures Goto(SetConn(Lone(e, c, pc), e, d), 0, qc) == Lone(e, d, qc)
    ensures Goto(Lone(e, c, pc), 0, qc) == Lone(e, c, qc)
  {
    assert SetConn(Lone(e, c, pc), e, d).conns == Lone(e, d, qc).conns;
  }

  lemma LoneIsInit(cfg: Config, e: nat)
    requires cfg.Valid() && e < ENDPOINT_MAX
    ensures Init(cfg, Lone(e, UNUSED, Out))
  {
  }

  // Two packets, credits for one; the first one fails.

  const SENT_ONE := UNUSED.(ep := Ep([NEXT], 0, 0, 1, 1, 1, 1), accepted := [SMALL, NEXT], taken := [ISSUED])
  const HANDED_ONE := SENT_ONE.(handed := [ISSUED], inDevice := [ISSUED])
  const WAITING := HANDED_ONE.(ep := Ep([NEXT], 0, 0, 1, 1, 0, 1))
  const GOT_BACK := WAITING.(ep := Ep([NEXT], 1, 0, 1, 1, 0, 1), inDevice := [], failed := [ISSUED])

  lemma PullOne(e: nat)
    ensures Pull(Charging(e), [SMALL, NEXT], 1, 1, 0) == Pulled([ISSUED], [NEXT], 0, 1)
    ensures Pull(Charging(e), [NEXT], 0, 1, 1) == Pulled([], [NEXT], 0, 1)
    ensures Pull(Charging(e), [LARGE, NEXT], 1, 1, 0) == Pulled([], [LARGE, NEXT], 1, 0)
  {
    Charges(e);
    assert [SMALL, NEXT][1..] == [NEXT];
    assert Pull(Charging(e), [NEXT], 0, 1, 1) == Pulled([], [NEXT], 0, 1);
  }

  lemma FailTurns(e: nat)
    requires 0 < e < ENDPOINT_MAX
    ensures Apply(Charging(e), Lone(e, UNUSED, AtLock(e, [SMALL, NEXT])), TakeLock(0))
      == Lone(e, SENT_ONE, Draining(e, [ISSUED]))
    ensures Apply(Charging(e), Lone(e, HANDED_ONE, Draining(e, [])), Relock(0)) == Lone(e, WAITING, Out)
  {
    PullOne(e);
    LoneUpdate(e, UNUSED, AtLock(e, [SMALL, NEXT]), SENT_ONE, Draining(e, [ISSUED]));
    LoneUpdate(e, HANDED_ONE, Draining(e, []), WAITING, Out);
    assert Started(Queued(UNUSED, [SMALL, NEXT])).ep == Ep([SMALL, NEXT], 1, 0, 1, 1, 1, 0);
    assert Passed(Charging(e), Started(Queued(UNUSED, [SMALL, NEXT]))) == SENT_ONE;
    assert Passed(Charging(e), HANDED_ONE) == WAITING;
  }

  lemma FailHandOver(e: nat)
    requires 0 < e < ENDPOINT_MAX
    ensures var s := Lone(e, SENT_ONE, Draining(e, [ISSUED]));
      && Enabled(Charging(e), s, HandOver(0, 1))
      && Apply(Charging(e), s, HandOver(0, 1)) == Lone(e, HANDED_ONE, Draining(e, []))
  {
    LoneUpdate(e, SENT_ONE, Draining(e, [ISSUED]), HANDED_ONE, Draining(e, []));
    assert Local(SENT_ONE) == [ISSUED] && [ISSUED][..1] == [ISSUED] && [ISSUED][1..] == [];
    assert HandedOver(SENT_ONE, 1) == HANDED_ONE;
  }

  lemma FailCompletion(e: nat)
    requires 0 < e < ENDPOINT_MAX
    ensures Apply(Charging(e), Lone(e, WAITING, Out), FailSend(e, 0)) == Lone(e, GOT_BACK, Out)
  {
    Charges(e);
    var s := Apply(Charging(e), Lone(e, WAITING, Out), FailSend(e, 0));
    forall j | 0 <= j < ENDPOINT_MAX
      ensures s.conns[j] == Lone(e, GOT_BACK, Out).conns[j]
    {
    }
  }

  ghost function FailStates(e: nat): seq<State>
  {
    [Lone(e, UNUSED, Out), Lone(e, UNUSED, AtLock(e, [SMALL, NEXT])), Lone(e, SENT_ONE, Draining(e, [ISSUED])),
     Lone(e, HANDED_ONE, Draining(e, [])), Lone(e, WAITING, Out), Lone(e, GOT_BACK, Out)]
  }

  ghost function FailSteps(e: nat): seq<Step>
  {
    [Submit(0, e, [SMALL, NEXT]), TakeLock(0), HandOver(0, 1), Relock(0), FailSend(e, 0)]
  }

  lemma FailStep(e: nat, i: nat)
    requires 0 < e < ENDPOINT_MAX && i < |FailSteps(e)|
    ensures Enabled(Charging(e), FailStates(e)[i], FailSteps(e)[i])
    ensures FailStates(e)[i + 1] == Apply(Charging(e), FailStates(e)[i], FailSteps(e)[i])
  {
    match i
    case 0 => LoneUpdate(e, UNUSED, Out, UNUSED, AtLock(e, [SMALL, NEXT]));
    case 1 => FailTurns(e);
    case 2 => FailHandOver(e);
    case 3 => FailTurns(e);
    case 4 => FailCompletion(e);
  }

  /** A run, with credits charged by length, that leaves an endpoint stranded when every thread
      is quiet and no packet is on its way. */
  ghost predicate EndsStranded(e: nat, cfg: Config, states: seq<State>, steps: seq<Step>) {
    && e < ENDPOINT_MAX && cfg.ChargesByLength(128, 32) && IsRun(cfg, states, steps)
    && |states[|steps|].conns| == ENDPOINT_MAX && InDistribution(cfg, e) && Quiet(states[|steps|])
    && states[|steps|].conns[e].inDevice == [] && Stranded(cfg, states[|steps|], e)
  }

  lemma FailedSendStrandsAPacket(e: nat)
    requires 0 < e < ENDPOINT_MAX
    ensures exists cfg: Config, states: seq<State>, steps: seq<Step> ::
      EndsStranded(e, cfg, states, steps) && 0 < |steps| && steps[|steps| - 1].FailSend?
  {
    Charges(e);
    LoneIsInit(Charging(e), e);
    forall i | 0 <= i < |FailSteps(e)|
      ensures |FailStates(e)[i].conns| == ENDPOINT_MAX && Enabled(Charging(e), FailStates(e)[i], FailSteps(e)[i])
      ensures FailStates(e)[i + 1] == Apply(Charging(e), FailStates(e)[i], FailSteps(e)[i])
    {
      FailStep(e, i);
    }
    assert IsRun(Charging(e), FailStates(e), FailSteps(e));
    assert EndsStranded(e, Charging(e), FailStates(e), FailSteps(e));
  }

  // A packet too large for the credits at hand is flushed from in front of one that is not.

  const BLOCKED := UNUSED.(ep := Ep([LARGE, NEXT], 1, 0, 1, 1, 0, 0), accepted := [LARGE, NEXT])
  const FLUSHED := BLOCKED.(ep := Ep([NEXT], 1, 0, 1, 1, 0, 0), flushed := [LARGE])

  ghost function FlushStates(e: nat): seq<State>
  {
    [Lone(e, UNUSED, Out), Lone(e, UNUSED, AtLock(e, [LARGE, NEXT])), Lone(e, BLOCKED, Out), Lone(e, FLUSHED, Out)]
  }

  ghost function FlushSteps(e: nat): seq<Step>
  {
    [Submit(0, e, [LARGE, NEXT]), TakeLock(0), Flush(e, 1)]
  }

  lemma FlushStep(e: nat, i: nat)
    requires 0 < e < ENDPOINT_MAX && i < |FlushSteps(e)|
    ensures Enabled(Charging(e), FlushStates(e)[i], FlushSteps(e)[i])
    ensures FlushStates(e)[i + 1] == Apply(Charging(e), FlushStates(e)[i], FlushSteps(e)[i])
  {
    match i
    case 0 => LoneUpdate(e, UNUSED, Out, UNUSED, AtLock(e, [LARGE, NEXT]));
    case 1 =>
      PullOne(e);
      LoneUpdate(e, UNUSED, AtLock(e, [LARGE, NEXT]), BLOCKED, Out);
      assert Started(Queued(UNUSED, [LARGE, NEXT])).ep == Ep([LARGE, NEXT], 1, 0, 1, 1, 1, 0);
      assert Passed(Charging(e), Started(Queued(UNUSED, [LARGE, NEXT]))) == BLOCKED;
    case 2 =>
      LoneUpdate(e, BLOCKED, Out, FLUSHED, Out);
      assert [LARGE, NEXT][1..] == [NEXT] && [NEXT][1..] == [];
      assert Kept([NEXT], 1) == [NEXT] && Discarded([NEXT], 1) == [];
      assert Flushed(BLOCKED, 1) == FLUSHED;
  }

  lemma FlushStrandsAPacket(e: nat)
    requires 0 < e < ENDPOINT_MAX
    ensures exists cfg: Config, states: seq<State>, steps: seq<Step> ::
      EndsStranded(e, cfg, states, steps) && 0 < |steps| && steps[|steps| - 1].Flush?
  {
    Charges(e);
    LoneIsInit(Charging(e), e);
    forall i | 0 <= i < |FlushSteps(e)|
      ensures |FlushStates(e)[i].conns| == ENDPOINT_MAX && Enabled(Charging(e), FlushStates(e)[i], FlushSteps(e)[i])
      ensures FlushStates(e)[i + 1] == Apply(Charging(e), FlushStates(e)[i], FlushSteps(e)[i])
    {
      FlushStep(e, i);
    }
    assert IsRun(Charging(e), FlushStates(e), FlushSteps(e));
    assert EndsStranded(e, Charging(e), FlushStates(e), FlushSteps(e));
  }
}
