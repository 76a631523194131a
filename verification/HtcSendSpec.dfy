/** What each lock-held section of the HTC send path computes, as functions on values.
    HtcSend proves the in-place code against these; HtcSendProtocol interleaves them. */
module HtcSendSpec {
  import opened CreditMath
  import opened SeqFacts

  const ENDPOINT_MAX: nat := 9
  const SEQ_MODULUS: nat := 256

  /** `cost` is the number of credits a packet consumes; ChargesByLength pins it down. */
  datatype Config = Config(cost: Packet -> nat, distList: seq<nat>) {
    /** The distribution list starts with endpoint 0 and names no endpoint twice. */
    ghost predicate Valid() {
      && 0 < |distList| && distList[0] == 0
      && (forall i :: 0 <= i < |distList| ==> distList[i] < ENDPOINT_MAX)
      && (forall i, j :: 0 <= i < j < |distList| ==> distList[i] != distList[j])
    }

    ghost predicate ChargesByLength(creditSize: nat, block: nat)
      requires 0 < creditSize && 0 < block
    {
      forall p: Packet {:trigger ChargeOf(p, creditSize, block)} :: cost(p) == ChargeOf(p, creditSize, block)
    }
  }

  /** The packet with its header, rounded up to blocks, in whole credits. */
  function ChargeOf(p: Packet, creditSize: nat, block: nat): nat
    requires 0 < creditSize && 0 < block
  {
    MessageCharge(p.length, creditSize, block)
  }

  datatype Packet = Packet(id: nat, length: nat, tag: nat)

  /** A packet taken off a TX queue, with the bookkeeping recorded in it. */
  datatype Issued = Issued(pkt: Packet, creditsUsed: nat, seqNo: nat, needCredits: bool)

  datatype Ep = Ep(txQueue: seq<Packet>, credits: int, toDist: int, share: int,
                   perMaxMsg: nat, processCount: int, seqNo: nat)

  datatype Pulled = Pulled(taken: seq<Issued>, rest: seq<Packet>, credits: int, seqNo: nat)

  /** Takes packets off the head while the credits last; the seek reason is ignored by the
      default distribution, so a shortage is final. */
  function Pull(cfg: Config, queue: seq<Packet>, credits: int, perMaxMsg: nat, seqNo: nat): (r: Pulled)
  {
    if queue == [] || credits < cfg.cost(queue[0]) then Pulled([], queue, credits, seqNo)
    else
      var cost := cfg.cost(queue[0]);
      var left := credits - cost;
      var more := Pull(cfg, queue[1..], left, perMaxMsg, Wrap(seqNo + 1));
      Pulled([Issued(queue[0], cost, seqNo, left < perMaxMsg)] + more.taken, more.rest, more.credits, more.seqNo)
  }

  function Pkts(s: seq<Issued>): (r: seq<Packet>)
    ensures |r| == |s| && forall i :: 0 <= i < |s| ==> r[i] == s[i].pkt
  {
    seq(|s|, i requires 0 <= i < |s| => s[i].pkt)
  }

  lemma PktsConcat(a: seq<Issued>, b: seq<Issued>)
    ensures Pkts(a + b) == Pkts(a) + Pkts(b)
  {
  }

  function Sum(s: seq<Issued>): (r: nat)
  {
    if s == [] then 0 else s[0].creditsUsed + Sum(s[1..])
  }

  lemma {:induction false} SumConcat(a: seq<Issued>, b: seq<Issued>)
    ensures Sum(a + b) == Sum(a) + Sum(b)
  {
    if a == [] {
      assert a + b == b;
    } else {
      assert (a + b)[1..] == a[1..] + b;
      SumConcat(a[1..], b);
    }
  }

  /** The head packet has the credits it needs. */
  predicate Sendable(cfg: Config, ep: Ep)
  {
    ep.txQueue != [] && cfg.cost(ep.txQueue[0]) <= ep.credits
  }

  /** A pull keeps every packet, in order. */
  lemma {:induction false} PullKeepsPackets(cfg: Config, queue: seq<Packet>, credits: int, perMaxMsg: nat, seqNo: nat)
    ensures var r := Pull(cfg, queue, credits, perMaxMsg, seqNo); Pkts(r.taken) + r.rest == queue
  {
    if queue == [] || credits < cfg.cost(queue[0]) {
    } else {
      var left := credits - cfg.cost(queue[0]);
      PullKeepsPackets(cfg, queue[1..], left, perMaxMsg, Wrap(seqNo + 1));
      var more := Pull(cfg, queue[1..], left, perMaxMsg, Wrap(seqNo + 1));
      var first := [Issued(queue[0], cfg.cost(queue[0]), seqNo, left < perMaxMsg)];
      PktsConcat(first, more.taken);
      assert Pkts(first) == [queue[0]];
      Regroup([queue[0]], Pkts(more.taken), more.rest);
    }
  }

  /** A pull keeps every credit, never overdraws, and stops only when the head packet is
      not affordable. */
  lemma {:induction false} PullConserves(cfg: Config, queue: seq<Packet>, credits: int, perMaxMsg: nat, seqNo: nat)
    requires 0 <= credits
    ensures var r := Pull(cfg, queue, credits, perMaxMsg, seqNo);
      && r.credits + Sum(r.taken) == credits && 0 <= r.credits
      && (r.rest == [] || r.credits < cfg.cost(r.rest[0]))
  {
    if queue == [] || credits < cfg.cost(queue[0]) {
    } else {
      var left := credits - cfg.cost(queue[0]);
      PullConserves(cfg, queue[1..], left, perMaxMsg, Wrap(seqNo + 1));
      assert Pull(cfg, queue, credits, perMaxMsg, seqNo).taken[1..]
        == Pull(cfg, queue[1..], left, perMaxMsg, Wrap(seqNo + 1)).taken;
    }
  }

  /** A pull numbers the packets it takes consecutively and records what each one costs. */
  lemma {:induction false} PullNumbers(cfg: Config, queue: seq<Packet>, credits: int, perMaxMsg: nat, n: nat)
    ensures var r := Pull(cfg, queue, credits, perMaxMsg, Wrap(n));
      r.seqNo == Wrap(n + |r.taken|) && Numbered(cfg, r.taken, n)
  {
    if queue == [] || credits < cfg.cost(queue[0]) {
    } else {
      var left := credits - cfg.cost(queue[0]);
      PullNumbers(cfg, queue[1..], left, perMaxMsg, n + 1);
      var more := Pull(cfg, queue[1..], left, perMaxMsg, Wrap(n + 1));
      WrapNext(n);
      NumberedCons(cfg, Issued(queue[0], cfg.cost(queue[0]), Wrap(n), left < perMaxMsg), more.taken, n);
    }
  }

  /** The k-th entry carries number n + k and the cost of its packet. */
  ghost predicate Numbered(cfg: Config, s: seq<Issued>, n: nat)
  {
    forall k :: 0 <= k < |s| ==> s[k].seqNo == Wrap(n + k) && s[k].creditsUsed == cfg.cost(s[k].pkt)
  }

  lemma NumberedCons(cfg: Config, x: Issued, s: seq<Issued>, n: nat)
    requires Numbered(cfg, s, n + 1) && x.seqNo == Wrap(n) && x.creditsUsed == cfg.cost(x.pkt)
    ensures Numbered(cfg, [x] + s, n)
  {
    forall k | 0 <= k < |[x] + s|
      ensures ([x] + s)[k].seqNo == Wrap(n + k) && ([x] + s)[k].creditsUsed == cfg.cost(([x] + s)[k].pkt)
    {
      if 0 < k { assert ([x] + s)[k] == s[k - 1] && n + 1 + (k - 1) == n + k; }
    }
  }

  lemma NumberedConcat(cfg: Config, a: seq<Issued>, b: seq<Issued>, n: nat)
    requires Numbered(cfg, a, n) && Numbered(cfg, b, n + |a|)
    ensures Numbered(cfg, a + b, n)
  {
    forall k | 0 <= k < |a + b|
      ensures (a + b)[k].seqNo == Wrap(n + k) && (a + b)[k].creditsUsed == cfg.cost((a + b)[k].pkt)
    {
      if |a| <= k { assert (a + b)[k] == b[k - |a|] && n + |a| + (k - |a|) == n + k; }
    }
  }

  /** Sequence numbers are one byte wide. */
  function Wrap(n: nat): (r: nat)
    ensures r < SEQ_MODULUS
  {
    n % SEQ_MODULUS
  }

  lemma WrapNext(n: nat)
    ensures Wrap(Wrap(n) + 1) == Wrap(n + 1)
  {
  }

  // --- the drain sections -------------------------------------------------------

  datatype Turned = Turned(ep: Ep, local: seq<Issued>)

  /** One lock-held turn of the drain loop. An empty local queue means the drain is over. */
  function Pass(cfg: Config, ep: Ep): Turned
  {
    var r := Pull(cfg, ep.txQueue, ep.credits, ep.perMaxMsg, ep.seqNo);
    Turned(ep.(txQueue := r.rest, credits := r.credits, seqNo := r.seqNo,
               processCount := if r.taken == [] then 0 else ep.processCount), r.taken)
  }

  /** The section entered by a sender: queue the packets, then drain unless somebody is. */
  function Enter(cfg: Config, ep: Ep, send: seq<Packet>): Turned
  {
    var queued := ep.(txQueue := ep.txQueue + send);
    if ep.processCount + 1 > 1 then Turned(queued, [])
    else Pass(cfg, queued.(processCount := ep.processCount + 1))
  }

  /** Whether the sender drains or leaves it to somebody else: what was queued and what it brought
      is now taken or queued, in that order. */
  lemma EnterKeepsPackets(cfg: Config, ep: Ep, send: seq<Packet>)
    ensures var r := Enter(cfg, ep, send);
      Pkts(r.local) + r.ep.txQueue == ep.txQueue + send && (0 < ep.processCount ==> r.local == [])
  {
    PullKeepsPackets(cfg, ep.txQueue + send, ep.credits, ep.perMaxMsg, ep.seqNo);
  }

  // --- flushing ---------------------------------------------------------------------

  /** Tag 0 stands for every packet. */
  predicate Matches(p: Packet, tag: nat) { tag == 0 || p.tag == tag }

  function Kept(q: seq<Packet>, tag: nat): (r: seq<Packet>)
    ensures |r| <= |q|
  {
    if q == [] then [] else (if Matches(q[0], tag) then [] else [q[0]]) + Kept(q[1..], tag)
  }

  function Discarded(q: seq<Packet>, tag: nat): (r: seq<Packet>)
    ensures |r| <= |q|
  {
    if q == [] then [] else (if Matches(q[0], tag) then [q[0]] else []) + Discarded(q[1..], tag)
  }

  lemma {:induction false} FlushSplits(q: seq<Packet>, tag: nat)
    ensures multiset(q) == multiset(Kept(q, tag)) + multiset(Discarded(q, tag))
  {
    if q != [] {
      HeadTail(q);
      FlushSplits(q[1..], tag);
    }
  }

  lemma {:induction false} FlushIdle(q: seq<Packet>, tag: nat)
    ensures Discarded(q, tag) == [] ==> Kept(q, tag) == q
    ensures tag == 0 ==> Kept(q, tag) == []
  {
    if q != [] { FlushIdle(q[1..], tag); }
  }

  // --- overflow of the TX queue -------------------------------------------------

  datatype Split = Split(accepted: seq<Packet>, dropped: seq<Packet>)

  /** Number of packets of the caller that are over the queue limit. */
  function Overflow(depth: nat, maxDepth: int, offered: nat): int
  {
    if depth >= maxDepth then offered else depth + offered - maxDepth
  }

  /** The callback's verdict on each overflowed packet, in order. */
  function Judge(over: seq<Packet>, keep: Packet -> bool): (r: Split)
  {
    if over == [] then Split([], [])
    else
      var more := Judge(over[1..], keep);
      if keep(over[0]) then Split([over[0]] + more.accepted, more.dropped)
      else Split(more.accepted, [over[0]] + more.dropped)
  }

  function SplitOverflow(depth: nat, maxDepth: int, hasSendFull: bool, pkts: seq<Packet>,
      keep: Packet -> bool): (r: Split)
  {
    var overflow := Overflow(depth, maxDepth, |pkts|);
    if overflow <= 0 || !hasSendFull then Split(pkts, [])
    else
      var good := |pkts| - overflow;
      var judged := Judge(pkts[good..], keep);
      Split(pkts[..good] + judged.accepted, judged.dropped)
  }

  /** The elements on which the callback says `want`, in order. */
  function Select(whole: seq<Packet>, keep: Packet -> bool, want: bool): (r: seq<Packet>)
  {
    if whole == [] then []
    else (if keep(whole[0]) == want then [whole[0]] else []) + Select(whole[1..], keep, want)
  }

  lemma {:induction false} JudgeIsSelection(over: seq<Packet>, keep: Packet -> bool)
    ensures Judge(over, keep) == Split(Select(over, keep, true), Select(over, keep, false))
    ensures multiset(Judge(over, keep).accepted) + multiset(Judge(over, keep).dropped) == multiset(over)
  {
    if over != [] {
      HeadTail(over);
      JudgeIsSelection(over[1..], keep);
    }
  }

  lemma {:induction false} SelectNone(s: seq<Packet>, keep: Packet -> bool)
    requires forall p :: p in s ==> !keep(p)
    ensures Select(s, keep, true) == []
  {
    if s != [] { SelectNone(s[1..], keep); }
  }

  /** Every packet offered is either accepted or left for the caller to complete. */
  lemma SplitLosesNothing(depth: nat, maxDepth: int, hasSendFull: bool, pkts: seq<Packet>, keep: Packet -> bool)
    ensures var r := SplitOverflow(depth, maxDepth, hasSendFull, pkts, keep);
      multiset(r.accepted) + multiset(r.dropped) == multiset(pkts)
  {
    var overflow := Overflow(depth, maxDepth, |pkts|);
    if overflow > 0 && hasSendFull {
      var good := |pkts| - overflow;
      JudgeIsSelection(pkts[good..], keep);
      assert pkts == pkts[..good] + pkts[good..];
    }
  }

  /** How many of the offered packets are within the limit. */
  function Fitting(depth: nat, maxDepth: int, offered: nat): (r: nat)
    ensures r <= offered && (0 < r ==> depth + r <= maxDepth)
    ensures r < offered ==> maxDepth <= depth + r
  {
    if depth >= maxDepth then 0 else if depth + offered <= maxDepth then offered else maxDepth - depth
  }

  /** The packets that fit are accepted ahead of the kept overflow, both parts in the order
      offered. */
  lemma SplitKeepsOrder(depth: nat, maxDepth: int, pkts: seq<Packet>, keep: Packet -> bool)
    ensures var r := SplitOverflow(depth, maxDepth, true, pkts, keep);
      var good := Fitting(depth, maxDepth, |pkts|);
      r.accepted == pkts[..good] + Select(pkts[good..], keep, true) && r.dropped == Select(pkts[good..], keep, false)
  {
    var good := Fitting(depth, maxDepth, |pkts|);
    if good == |pkts| {
      assert pkts[good..] == [] && pkts[..good] == pkts;
    } else {
      JudgeIsSelection(pkts[good..], keep);
    }
  }

  /** Without a callback everything is accepted, whatever the limit. */
  lemma SplitWithoutCallback(depth: nat, maxDepth: int, pkts: seq<Packet>, keep: Packet -> bool)
    ensures SplitOverflow(depth, maxDepth, false, pkts, keep) == Split(pkts, [])
  {
  }

  /** When the callback keeps nothing, the queue limit is respected. */
  lemma SplitRespectsLimit(depth: nat, maxDepth: int, pkts: seq<Packet>, keep: Packet -> bool)
    requires depth <= maxDepth && forall p :: p in pkts ==> !keep(p)
    ensures depth + |SplitOverflow(depth, maxDepth, true, pkts, keep).accepted| <= maxDepth
  {
    var good := Fitting(depth, maxDepth, |pkts|);
    SplitKeepsOrder(depth, maxDepth, pkts, keep);
    SelectNone(pkts[good..], keep);
  }

  // --- credit reports and distribution -------------------------------------------

  datatype Report = Report(endpoint: nat, credits: nat)

  /** Entries after the first one naming a bad endpoint are ignored. */
  function Usable(rpt: seq<Report>): (r: seq<Report>)
    ensures |r| <= |rpt| && r == rpt[..|r|]
    ensures forall i :: 0 <= i < |r| ==> r[i].endpoint < ENDPOINT_MAX
    ensures |r| < |rpt| ==> ENDPOINT_MAX <= rpt[|r|].endpoint
  {
    if rpt == [] || rpt[0].endpoint >= ENDPOINT_MAX then [] else [rpt[0]] + Usable(rpt[1..])
  }

  function CreditsFor(rpt: seq<Report>, e: nat): (r: nat)
  {
    if rpt == [] then 0
    else CreditsFor(rpt[..|rpt| - 1], e) + (if rpt[|rpt| - 1].endpoint == e then rpt[|rpt| - 1].credits else 0)
  }

  function TotalCredits(rpt: seq<Report>): (r: nat)
  {
    if rpt == [] then 0 else TotalCredits(rpt[..|rpt| - 1]) + rpt[|rpt| - 1].credits
  }

  /** A report brings no credits exactly when none of its entries does. */
  lemma {:induction false} TotalIsZeroIff(rpt: seq<Report>)
    ensures TotalCredits(rpt) == 0 <==> forall i :: 0 <= i < |rpt| ==> rpt[i].credits == 0
  {
    if rpt != [] { TotalIsZeroIff(rpt[..|rpt| - 1]); }
  }

  /** Endpoint 0 gets its credits at once, the others wait for the distribution. */
  function Credited(ep: Ep, e: nat, credits: nat): Ep
  {
    if e == 0 then ep.(credits := ep.credits + credits) else ep.(toDist := ep.toDist + credits)
  }

  /** The default distribution hands an endpoint whatever is waiting for it. */
  function Given(ep: Ep): Ep
  {
    if ep.toDist > 0 then ep.(credits := ep.credits + ep.toDist, toDist := 0) else ep
  }

  /** Distribution runs over the list after its first entry. */
  predicate InDistribution(cfg: Config, e: nat)
  {
    exists i :: 1 <= i < |cfg.distList| && cfg.distList[i] == e
  }

  predicate NeedsDistribution(rpt: seq<Report>)
  {
    exists i :: 0 <= i < |rpt| && rpt[i].endpoint != 0
  }

  /** Endpoint `e` after a whole credit report has been processed. */
  function Reported(cfg: Config, ep: Ep, e: nat, rpt: seq<Report>): Ep
  {
    var used := Usable(rpt);
    var got := Credited(ep, e, CreditsFor(used, e));
    if NeedsDistribution(used) && InDistribution(cfg, e) then Given(got) else got
  }

  lemma {:induction false} NoCreditsNoTotal(rpt: seq<Report>, e: nat)
    ensures CreditsFor(rpt, e) <= TotalCredits(rpt)
  {
    if rpt != [] { NoCreditsNoTotal(rpt[..|rpt| - 1], e); }
  }

  lemma {:induction false} CreditsNameTheEndpoint(rpt: seq<Report>, e: nat)
    ensures 0 < CreditsFor(rpt, e) ==> exists i :: 0 <= i < |rpt| && rpt[i].endpoint == e
  {
    if rpt != [] {
      var init := rpt[..|rpt| - 1];
      CreditsNameTheEndpoint(init, e);
      if 0 < CreditsFor(init, e) {
        var i :| 0 <= i < |init| && init[i].endpoint == e;
        assert rpt[i].endpoint == e;
      }
    }
  }
}
