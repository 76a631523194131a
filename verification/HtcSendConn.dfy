/** One connection of the send protocol: the endpoint together with the history of every
    packet and credit that went through it, and what each event does to it. */
module HtcSendConn {
  import opened SeqFacts
  import opened HtcSendSpec

  /** `accepted` packets in arrival order; `taken` off the TX queue; `handed` to the device;
      each handed packet is `inDevice`, `delivered` or `failed`. `owed` counts the credits the
      target holds but has not reported, `budget` all the credits of the connection. */
  datatype Conn = Conn(ep: Ep, accepted: seq<Packet>, flushed: seq<Packet>,
                       taken: seq<Issued>, handed: seq<Issued>,
                       inDevice: seq<Issued>, delivered: seq<Issued>, failed: seq<Issued>, owed: nat, budget: nat)

  /** What the drainer has taken but not handed over yet. */
  function Local(c: Conn): seq<Issued>
    requires |c.handed| <= |c.taken|
  {
    c.taken[|c.handed|..]
  }

  ghost predicate Credits(c: Conn)
    requires |c.handed| <= |c.taken|
  {
    && 0 <= c.ep.credits && 0 <= c.ep.toDist
    && c.ep.credits + c.ep.toDist + Sum(Local(c)) + Sum(c.inDevice) + c.owed == c.budget
  }

  /** Packets leave in the order they were accepted, and none is lost or duplicated. */
  ghost predicate Fifo(c: Conn) {
    && (c.flushed == [] ==> c.accepted == Pkts(c.taken) + c.ep.txQueue)
    && multiset(c.accepted) == multiset(Pkts(c.taken)) + multiset(c.ep.txQueue) + multiset(c.flushed)
  }

  ghost predicate Order(cfg: Config, c: Conn)
    requires |c.handed| <= |c.taken|
  {
    && c.handed == c.taken[..|c.handed|]
    && c.ep.seqNo == Wrap(|c.taken|) && Numbered(cfg, c.taken, 0)
    && multiset(c.handed) == multiset(c.inDevice) + multiset(c.delivered) + multiset(c.failed)
  }

  ghost predicate ConnOk(cfg: Config, c: Conn) {
    && |c.handed| <= |c.taken|
    && (c.ep.processCount == 1 || (c.ep.processCount == 0 && |c.handed| == |c.taken|))
    && Credits(c) && Order(cfg, c) && Fifo(c)
  }

  // --- events -------------------------------------------------------------------

  function Queued(c: Conn, send: seq<Packet>): Conn
  {
    c.(ep := c.ep.(txQueue := c.ep.txQueue + send), accepted := c.accepted + send)
  }

  function Started(c: Conn): Conn
  {
    c.(ep := c.ep.(processCount := c.ep.processCount + 1))
  }

  /** The owner of the drain takes the lock for another turn. */
  function Passed(cfg: Config, c: Conn): Conn
  {
    var p := Pass(cfg, c.ep);
    c.(ep := p.ep, taken := c.taken + p.local)
  }

  function HandedOver(c: Conn, n: nat): Conn
    requires |c.handed| + n <= |c.taken|
  {
    var out := Local(c)[..n];
    c.(handed := c.handed + out, inDevice := c.inDevice + out)
  }

  function Delivered(c: Conn, i: nat): Conn
    requires i < |c.inDevice|
  {
    c.(inDevice := Without(c.inDevice, i), delivered := c.delivered + [c.inDevice[i]],
       owed := c.owed + c.inDevice[i].creditsUsed)
  }

  /** A failed completion puts the packet's credits up for distribution. */
  function Failed(c: Conn, i: nat): Conn
    requires i < |c.inDevice|
  {
    c.(inDevice := Without(c.inDevice, i), failed := c.failed + [c.inDevice[i]],
       ep := c.ep.(toDist := c.ep.toDist + c.inDevice[i].creditsUsed))
  }

  function Distributed(c: Conn): Conn
  {
    c.(ep := Given(c.ep))
  }

  function CreditsReported(cfg: Config, c: Conn, e: nat, rpt: seq<Report>): Conn
  {
    var n := CreditsFor(Usable(rpt), e);
    c.(ep := Reported(cfg, c.ep, e, rpt), owed := if n <= c.owed then c.owed - n else 0)
  }

  function Flushed(c: Conn, tag: nat): Conn
  {
    c.(ep := c.ep.(txQueue := Kept(c.ep.txQueue, tag)), flushed := c.flushed + Discarded(c.ep.txQueue, tag))
  }

  // --- every event keeps the connection consistent --------------------------------

  lemma QueuedOk(cfg: Config, c: Conn, send: seq<Packet>)
    requires ConnOk(cfg, c)
    ensures ConnOk(cfg, Queued(c, send))
  {
    assert Pkts(c.taken) + (c.ep.txQueue + send) == Pkts(c.taken) + c.ep.txQueue + send;
  }

  /** The owner of the drain holds the lock and has nothing left to hand over. */
  ghost predicate AtTurn(cfg: Config, c: Conn) {
    c.ep.processCount == 1 && |c.handed| == |c.taken| && Credits(c) && Order(cfg, c) && Fifo(c)
  }

  lemma BeginTurn(cfg: Config, c: Conn)
    requires ConnOk(cfg, c) && c.ep.processCount == 0
    ensures AtTurn(cfg, Started(c))
  {
  }

  lemma PassedCredits(cfg: Config, c: Conn)
    requires AtTurn(cfg, c)
    ensures Local(Passed(cfg, c)) == Pass(cfg, c.ep).local
    ensures Credits(Passed(cfg, c)) && !Sendable(cfg, Passed(cfg, c).ep)
  {
    PullConserves(cfg, c.ep.txQueue, c.ep.credits, c.ep.perMaxMsg, c.ep.seqNo);
    assert Local(Passed(cfg, c)) == Pass(cfg, c.ep).local;
  }

  lemma PassedOrder(cfg: Config, c: Conn)
    requires AtTurn(cfg, c)
    ensures Order(cfg, Passed(cfg, c))
  {
    PullNumbers(cfg, c.ep.txQueue, c.ep.credits, c.ep.perMaxMsg, |c.taken|);
    NumberedConcat(cfg, c.taken, Pass(cfg, c.ep).local, 0);
    assert Passed(cfg, c).taken[..|c.handed|] == c.handed;
  }

  lemma PassedFifo(cfg: Config, c: Conn)
    requires AtTurn(cfg, c)
    ensures Fifo(Passed(cfg, c))
  {
    var local := Pass(cfg, c.ep).local;
    var rest := Pass(cfg, c.ep).ep.txQueue;
    PullKeepsPackets(cfg, c.ep.txQueue, c.ep.credits, c.ep.perMaxMsg, c.ep.seqNo);
    PktsConcat(c.taken, local);
    Regroup(Pkts(c.taken), Pkts(local), rest);
    FifoMoves(c, Passed(cfg, c), Pkts(local));
  }

  /** Packets moved from the head of the queue to the end of the taken ones. */
  lemma FifoMoves(c: Conn, d: Conn, moved: seq<Packet>)
    requires Fifo(c) && d.accepted == c.accepted && d.flushed == c.flushed
    requires c.ep.txQueue == moved + d.ep.txQueue && Pkts(d.taken) == Pkts(c.taken) + moved
    ensures Fifo(d)
  {
    Regroup(Pkts(c.taken), moved, d.ep.txQueue);
  }

  /** A turn of the drain leaves a head packet that cannot be afforded, if any. */
  lemma PassedOk(cfg: Config, c: Conn)
    requires AtTurn(cfg, c)
    ensures ConnOk(cfg, Passed(cfg, c)) && !Sendable(cfg, Passed(cfg, c).ep)
    ensures Local(Passed(cfg, c)) == Pass(cfg, c.ep).local
    ensures Passed(cfg, c).ep.processCount == if Pass(cfg, c.ep).local == [] then 0 else 1
  {
    PassedCredits(cfg, c);
    PassedOrder(cfg, c);
    PassedFifo(cfg, c);
  }

  lemma HandedOverCredits(cfg: Config, c: Conn, n: nat)
    requires ConnOk(cfg, c) && n <= |Local(c)|
    ensures Credits(HandedOver(c, n)) && Local(HandedOver(c, n)) == Local(c)[n..]
  {
    var out := Local(c)[..n];
    SplitAt(Local(c), n);
    SumConcat(out, Local(c)[n..]);
    SumConcat(c.inDevice, out);
    assert Local(HandedOver(c, n)) == Local(c)[n..];
  }

  lemma HandedOverOk(cfg: Config, c: Conn, n: nat)
    requires ConnOk(cfg, c) && c.ep.processCount == 1 && n <= |Local(c)|
    ensures ConnOk(cfg, HandedOver(c, n)) && Local(HandedOver(c, n)) == Local(c)[n..]
  {
    HandedOverCredits(cfg, c, n);
    assert HandedOver(c, n).handed == c.taken[..|c.handed| + n];
  }

  lemma {:induction false} SumWithout(s: seq<Issued>, i: nat)
    requires i < |s|
    ensures Sum(s) == Sum(Without(s, i)) + s[i].creditsUsed
  {
    if i == 0 {
      assert Without(s, i) == s[1..];
    } else {
      SumWithout(s[1..], i - 1);
      assert Without(s, i)[1..] == Without(s[1..], i - 1);
    }
  }

  lemma DeliveredOk(cfg: Config, c: Conn, i: nat)
    requires ConnOk(cfg, c) && i < |c.inDevice|
    ensures ConnOk(cfg, Delivered(c, i))
  {
    SumWithout(c.inDevice, i);
    WithoutMultiset(c.inDevice, i);
  }

  lemma FailedOk(cfg: Config, c: Conn, i: nat)
    requires ConnOk(cfg, c) && i < |c.inDevice|
    ensures ConnOk(cfg, Failed(c, i))
  {
    SumWithout(c.inDevice, i);
    WithoutMultiset(c.inDevice, i);
  }

  lemma DistributedOk(cfg: Config, c: Conn)
    requires ConnOk(cfg, c)
    ensures ConnOk(cfg, Distributed(c))
  {
  }

  lemma CreditsReportedOk(cfg: Config, c: Conn, e: nat, rpt: seq<Report>)
    requires ConnOk(cfg, c) && CreditsFor(Usable(rpt), e) <= c.owed
    ensures ConnOk(cfg, CreditsReported(cfg, c, e, rpt))
  {
  }

  lemma FlushedOk(cfg: Config, c: Conn, tag: nat)
    requires ConnOk(cfg, c)
    ensures ConnOk(cfg, Flushed(c, tag))
  {
    FlushSplits(c.ep.txQueue, tag);
    FlushIdle(c.ep.txQueue, tag);
  }
}
