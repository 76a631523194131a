/** The send path in place: endpoints with their TX queues and credits, and the lock-held
    sections that change them. A packet in a TX queue is what the caller supplied; taken off
    the queue it becomes the record of what it was charged and numbered. */
module HtcSend {
  import opened CreditMath
  import opened SeqFacts
  import opened HtcSendSpec

  datatype SendStatus = Ok | Einval | NoResource | Ecanceled

  class Endpoint {
    var TxQueue: seq<Packet>
    var TxCredits: int
    var TxCreditsToDist: int
    var TxCreditsAssigned: int
    var TxCreditsMin: int
    var TxCreditsNorm: int
    var TxCreditsPerMaxMsg: nat
    var TxCreditsSeek: int
    var TxQueueDepth: nat
    var MaxTxQueueDepth: int
    var TxProcessCount: int
    var SeqNo: nat
    var ServiceID: nat
    var pNext: Endpoint?
    var pPrev: Endpoint?

    function View(): Ep
      reads this
    {
      Ep(TxQueue, TxCredits, TxCreditsToDist, TxCreditsAssigned, TxCreditsPerMaxMsg, TxProcessCount, SeqNo)
    }

    /** The endpoint's initial share under the default policy. */
    method SetShare(creditsPerEndpoint: nat)
      modifies this`TxCredits, this`TxCreditsAssigned, this`TxCreditsMin, this`TxCreditsNorm
      ensures View() == old(View()).(credits := creditsPerEndpoint, share := creditsPerEndpoint)
      ensures TxCreditsMin == TxCreditsPerMaxMsg && TxCreditsNorm == 0xFFFF
    {
      TxCreditsMin := TxCreditsPerMaxMsg;
      TxCreditsNorm := 0xFFFF;
      TxCredits := creditsPerEndpoint;
      TxCreditsAssigned := creditsPerEndpoint;
    }

    /** The endpoint's turn in the default distribution. */
    method TakeBack()
      modifies this`TxCredits, this`TxCreditsToDist
      ensures View() == Given(old(View()))
    {
      if TxCreditsToDist > 0 {
        TxCredits := TxCredits + TxCreditsToDist;
        TxCreditsToDist := 0;
      }
    }

    /** One entry of a credit report. */
    method CreditBack(isEndpoint0: bool, credits: nat)
      modifies this`TxCredits, this`TxCreditsToDist, this`TxQueueDepth
      ensures View() == Credited(old(View()), if isEndpoint0 then 0 else 1, credits)
      ensures TxQueueDepth == |TxQueue|
    {
      if isEndpoint0 {
        TxCredits := TxCredits + credits;
      } else {
        TxCreditsToDist := TxCreditsToDist + credits;
      }
      TxQueueDepth := |TxQueue|;
    }

    /** Charges the head packet and takes it off the queue. The seek reason leaves the
        credits as they are under the default distribution. */
    method TakeHead(creditsRequired: nat) returns (packet: Issued)
      requires TxQueue != []
      modifies this`TxQueue, this`TxCredits, this`TxCreditsSeek, this`SeqNo
      ensures TxQueue == old(TxQueue)[1..] && TxCredits == old(TxCredits) - creditsRequired
      ensures SeqNo == Wrap(old(SeqNo) + 1)
      ensures TxCreditsSeek == if TxCredits < TxCreditsPerMaxMsg then 0 else old(TxCreditsSeek)
      ensures packet == Issued(old(TxQueue)[0], creditsRequired, old(SeqNo), TxCredits < TxCreditsPerMaxMsg)
    {
      TxCredits := TxCredits - creditsRequired;
      var needCredits := false;
      if TxCredits < TxCreditsPerMaxMsg {
        TxCreditsSeek := TxCreditsPerMaxMsg - TxCredits;
        TxCreditsSeek := 0;
        if TxCredits < TxCreditsPerMaxMsg {
          needCredits := true;
        }
      }
      packet := Issued(TxQueue[0], creditsRequired, SeqNo, needCredits);
      TxQueue := TxQueue[1..];
      SeqNo := Wrap(SeqNo + 1);
    }

    /** One pass of the loop below: the head packet is taken if it can be afforded. */
    method TakeAffordable(cfg: Config, TargetCreditSize: nat, block: nat, ghost queue: seq<Issued>, ghost all: Pulled)
      returns (taken: bool, packet: Issued)
      requires 0 < TargetCreditSize && 0 < block && cfg.ChargesByLength(TargetCreditSize, block)
      requires TxQueue != [] && Leads(cfg, queue, TxQueue, TxCredits, TxCreditsPerMaxMsg, SeqNo, all)
      modifies this`TxQueue, this`TxCredits, this`TxCreditsSeek, this`SeqNo
      ensures taken ==> Leads(cfg, queue + [packet], TxQueue, TxCredits, TxCreditsPerMaxMsg, SeqNo, all)
      ensures taken ==> |TxQueue| < |old(TxQueue)|
      ensures !taken ==> all == Pulled(queue, TxQueue, TxCredits, SeqNo) && TxCreditsSeek == 0
    {
      packet := Issued(TxQueue[0], 0, 0, false);
      var creditsRequired := CalcCreditsRequired(cfg, TxQueue[0], TargetCreditSize, block);
      if TxCredits < creditsRequired {
        TxCreditsSeek := creditsRequired - TxCredits;
        TxCreditsSeek := 0;
        LeadsTo(cfg, queue, TxQueue, TxCredits, TxCreditsPerMaxMsg, SeqNo, all);
        return false, packet;
      }
      LeadsOn(cfg, queue, TxQueue, TxCredits, TxCreditsPerMaxMsg, SeqNo, all);
      taken := true;
      packet := TakeHead(creditsRequired);
    }

    /** Takes packets off the TX queue for as long as the credits last. */
    method GetHTCSendPackets(cfg: Config, TargetCreditSize: nat, block: nat) returns (queue: seq<Issued>)
      requires 0 < TargetCreditSize && 0 < block && cfg.ChargesByLength(TargetCreditSize, block)
      modifies this`TxQueue, this`TxCredits, this`TxCreditsSeek, this`SeqNo
      ensures Pull(cfg, old(TxQueue), old(TxCredits), TxCreditsPerMaxMsg, old(SeqNo))
        == Pulled(queue, TxQueue, TxCredits, SeqNo)
    {
      queue := [];
      ghost var all := Pull(cfg, TxQueue, TxCredits, TxCreditsPerMaxMsg, SeqNo);
      while TxQueue != []
        invariant Leads(cfg, queue, TxQueue, TxCredits, TxCreditsPerMaxMsg, SeqNo, all)
        decreases |TxQueue|
      {
        var taken, packet := TakeAffordable(cfg, TargetCreditSize, block, queue, all);
        if !taken {
          return;
        }
        queue := queue + [packet];
      }
      LeadsTo(cfg, queue, TxQueue, TxCredits, TxCreditsPerMaxMsg, SeqNo, all);
    }

    /** The section at the head of the drain: queue what the caller brought, then either
        leave it to the thread that is draining or take the first turn. */
    method TakeTxLock(cfg: Config, sendQueue: seq<Packet>, TargetCreditSize: nat, block: nat)
      returns (local: seq<Issued>)
      requires 0 < TargetCreditSize && 0 < block && cfg.ChargesByLength(TargetCreditSize, block)
      modifies this`TxQueue, this`TxCredits, this`TxCreditsSeek, this`SeqNo, this`TxProcessCount
      ensures Enter(cfg, old(View()), sendQueue) == Turned(View(), local)
    {
      TxQueue := TxQueue + sendQueue;
      TxProcessCount := TxProcessCount + 1;
      if TxProcessCount > 1 {
        TxProcessCount := TxProcessCount - 1;
        return [];
      }
      local := DrainTurn(cfg, TargetCreditSize, block);
    }

    /** One turn of the drain loop, from taking the lock to releasing it. */
    method DrainTurn(cfg: Config, TargetCreditSize: nat, block: nat) returns (local: seq<Issued>)
      requires 0 < TargetCreditSize && 0 < block && cfg.ChargesByLength(TargetCreditSize, block)
      modifies this`TxQueue, this`TxCredits, this`TxCreditsSeek, this`SeqNo, this`TxProcessCount
      ensures Pass(cfg, old(View())) == Turned(View(), local)
    {
      if |TxQueue| == 0 {
        TxProcessCount := 0;
        return [];
      }
      local := GetHTCSendPackets(cfg, TargetCreditSize, block);
      if |local| == 0 {
        TxProcessCount := 0;
      }
    }

    /** The part of HTCTrySend before the lock: what of the caller's queue is let in. The
        callback judges the packets beyond the queue limit one by one. */
    method AdmitPackets(EpSendFull: Packet -> bool, hasSendFull: bool, callersQueue: seq<Packet>)
      returns (sendQueue: seq<Packet>, leftOver: seq<Packet>)
      ensures SplitOverflow(|TxQueue|, MaxTxQueueDepth, hasSendFull, callersQueue, EpSendFull)
        == Split(sendQueue, leftOver)
      ensures !hasSendFull ==> sendQueue == callersQueue && leftOver == []
    {
      var overflow := if |TxQueue| >= MaxTxQueueDepth then |callersQueue|
        else |TxQueue| + |callersQueue| - MaxTxQueueDepth;
      if overflow <= 0 || !hasSendFull {
        return callersQueue, [];
      }
      var goodPkts := |callersQueue| - overflow;
      var i := 0;
      sendQueue := [];
      while i < goodPkts
        invariant 0 <= i <= goodPkts && sendQueue == callersQueue[..i]
      {
        sendQueue := sendQueue + [callersQueue[i]];
        i := i + 1;
      }
      var kept;
      kept, leftOver := JudgeOverflow(callersQueue[goodPkts..], EpSendFull);
      sendQueue := sendQueue + kept;
    }

    /** The callback decides on each packet that does not fit. */
    method JudgeOverflow(overflowed: seq<Packet>, EpSendFull: Packet -> bool)
      returns (kept: seq<Packet>, dropped: seq<Packet>)
      ensures Judge(overflowed, EpSendFull) == Split(kept, dropped)
    {
      kept, dropped := [], [];
      var rest := overflowed;
      while rest != []
        invariant kept + Judge(rest, EpSendFull).accepted == Judge(overflowed, EpSendFull).accepted
        invariant dropped + Judge(rest, EpSendFull).dropped == Judge(overflowed, EpSendFull).dropped
        decreases |rest|
      {
        if EpSendFull(rest[0]) {
          kept := kept + [rest[0]];
        } else {
          dropped := dropped + [rest[0]];
        }
        rest := rest[1..];
      }
    }

    /** Takes what the caller offers. A packet that is not let in is completed at once, as
        canceled when HTC is being stopped and for want of resources otherwise. */
    method SendPktsMultiple(cfg: Config, TargetCreditSize: nat, block: nat, EpSendFull: Packet -> bool,
        hasSendFull: bool, stopping: bool, pktQueue: seq<Packet>)
      returns (status: SendStatus, completion: SendStatus, completed: seq<Packet>, local: seq<Issued>)
      requires 0 < TargetCreditSize && 0 < block && cfg.ChargesByLength(TargetCreditSize, block)
      modifies this`TxQueue, this`TxCredits, this`TxCreditsSeek, this`SeqNo, this`TxProcessCount
      ensures status == if pktQueue == [] then Einval else Ok
      ensures pktQueue == [] ==> View() == old(View()) && completed == [] && local == []
      ensures pktQueue != [] ==>
        var split := SplitOverflow(old(|TxQueue|), MaxTxQueueDepth, hasSendFull, pktQueue, EpSendFull);
        && completed == split.dropped && completion == (if stopping then Ecanceled else NoResource)
        && Turned(View(), local) == if split.accepted == [] then Turned(old(View()), [])
          else Enter(cfg, old(View()), split.accepted)
      ensures !hasSendFull ==> completed == [] && Pkts(local) + TxQueue == old(TxQueue) + pktQueue
      ensures hasSendFull ==>
        var good := Fitting(old(|TxQueue|), MaxTxQueueDepth, |pktQueue|);
        && completed == Select(pktQueue[good..], EpSendFull, false)
        && Pkts(local) + TxQueue == old(TxQueue) + (pktQueue[..good] + Select(pktQueue[good..], EpSendFull, true))
    {
      completion := if stopping then Ecanceled else NoResource;
      SplitKeepsOrder(|TxQueue|, MaxTxQueueDepth, pktQueue, EpSendFull);
      if pktQueue == [] {
        return Einval, completion, [], [];
      }
      status, local := Ok, [];
      var sendQueue;
      sendQueue, completed := AdmitPackets(EpSendFull, hasSendFull, pktQueue);
      if sendQueue != [] {
        EnterKeepsPackets(cfg, View(), sendQueue);
        local := TakeTxLock(cfg, sendQueue, TargetCreditSize, block);
      }
    }

    /** The locked part of HTCFlushEndpointTX: packets carrying the tag, or all of them for
        tag 0, move to the discard queue. */
    method FlushTagged(tag: nat) returns (discardQueue: seq<Packet>)
      modifies this`TxQueue
      ensures TxQueue == Kept(old(TxQueue), tag) && discardQueue == Discarded(old(TxQueue), tag)
    {
      var rest := TxQueue;
      var kept: seq<Packet> := [];
      discardQueue := [];
      while rest != []
        invariant kept + Kept(rest, tag) == Kept(old(TxQueue), tag)
        invariant discardQueue + Discarded(rest, tag) == Discarded(old(TxQueue), tag)
        decreases |rest|
      {
        FlushOne(kept, discardQueue, rest, tag);
        if tag == 0 || rest[0].tag == tag {
          discardQueue := discardQueue + [rest[0]];
        } else {
          kept := kept + [rest[0]];
        }
        rest := rest[1..];
      }
      TxQueue := kept;
    }
  }

  /** One packet goes to one of the two queues. */
  lemma FlushOne(kept: seq<Packet>, discarded: seq<Packet>, rest: seq<Packet>, tag: nat)
    requires rest != []
    ensures var goes := tag == 0 || rest[0].tag == tag;
      && kept + Kept(rest, tag) == (if goes then kept else kept + [rest[0]]) + Kept(rest[1..], tag)
      && discarded + Discarded(rest, tag)
        == (if goes then discarded + [rest[0]] else discarded) + Discarded(rest[1..], tag)
  {
    var goes := tag == 0 || rest[0].tag == tag;
    var stays, leaves := if goes then [] else [rest[0]], if goes then [rest[0]] else [];
    assert Kept(rest, tag) == stays + Kept(rest[1..], tag);
    assert Discarded(rest, tag) == leaves + Discarded(rest[1..], tag);
    Regroup(kept, stays, Kept(rest[1..], tag));
    Regroup(discarded, leaves, Discarded(rest[1..], tag));
  }

  /** Having taken `taken`, pulling from `queue` completes the pull `all`. */
  ghost predicate Leads(cfg: Config, taken: seq<Issued>, queue: seq<Packet>, credits: int, perMaxMsg: nat, seqNo: nat,
      all: Pulled)
  {
    var more := Pull(cfg, queue, credits, perMaxMsg, seqNo);
    all == Pulled(taken + more.taken, more.rest, more.credits, more.seqNo)
  }

  lemma LeadsOn(cfg: Config, taken: seq<Issued>, queue: seq<Packet>, credits: int, perMaxMsg: nat, seqNo: nat,
      all: Pulled)
    requires queue != [] && cfg.cost(queue[0]) <= credits && Leads(cfg, taken, queue, credits, perMaxMsg, seqNo, all)
    ensures var left := credits - cfg.cost(queue[0]);
      Leads(cfg, taken + [Issued(queue[0], cfg.cost(queue[0]), seqNo, left < perMaxMsg)], queue[1..], left, perMaxMsg,
        Wrap(seqNo + 1), all)
  {
    var left := credits - cfg.cost(queue[0]);
    var more := Pull(cfg, queue[1..], left, perMaxMsg, Wrap(seqNo + 1));
    Regroup(taken, [Issued(queue[0], cfg.cost(queue[0]), seqNo, left < perMaxMsg)], more.taken);
  }

  lemma LeadsTo(cfg: Config, taken: seq<Issued>, queue: seq<Packet>, credits: int, perMaxMsg: nat, seqNo: nat,
      all: Pulled)
    requires queue == [] || credits < cfg.cost(queue[0])
    requires Leads(cfg, taken, queue, credits, perMaxMsg, seqNo, all)
    ensures all == Pulled(taken, queue, credits, seqNo)
  {
  }

  /** The credits a packet needs; the smallest number whose bytes cover it. */
  method CalcCreditsRequired(cfg: Config, packet: Packet, creditSize: nat, block: nat) returns (creditsRequired: nat)
    requires 0 < creditSize && 0 < block && cfg.ChargesByLength(creditSize, block)
    ensures creditsRequired == cfg.cost(packet)
  {
    assert cfg.cost(packet) == ChargeOf(packet, creditSize, block);
    var transferLength := PaddedLength(packet.length + HTC_HDR_LENGTH, block);
    if transferLength <= creditSize {
      creditsRequired := 1;
    } else {
      creditsRequired := transferLength / creditSize;
      var remainder := transferLength % creditSize;
      if remainder != 0 {
        creditsRequired := creditsRequired + 1;
      }
    }
  }
}
