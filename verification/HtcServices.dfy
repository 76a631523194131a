/** The credit distribution list and the default credit policy, in place. */
module HtcServices {
  import opened CreditMath
  import opened SeqFacts
  import opened HtcSendSpec
  import opened HtcSend
  import HtcSendProtocol
  import HtcSendTheorems

  ghost function At(nodes: seq<Endpoint>, i: int): Endpoint?
  {
    if 0 <= i < |nodes| then nodes[i] else null
  }

  /** A walk from `from` along pNext visits exactly `nodes`. */
  ghost predicate Walk(from: Endpoint?, nodes: seq<Endpoint>)
    reads nodes`pNext
  {
    && from == At(nodes, 0) && Distinct(nodes)
    && (forall i, j :: 0 <= i < j < |nodes| && j == i + 1 ==> nodes[i].pNext == nodes[j])
    && (nodes != [] ==> nodes[|nodes| - 1].pNext == null)
  }

  /** Where the entries point back to. */
  ghost function Backs(nodes: seq<Endpoint>): (r: seq<Endpoint?>)
    reads nodes`pPrev
    ensures |r| == |nodes| && forall i :: 0 <= i < |r| ==> r[i] == nodes[i].pPrev
  {
    if nodes == [] then [] else [nodes[0].pPrev] + Backs(nodes[1..])
  }

  /** Every entry points back at the one before it. */
  ghost predicate PointBack(nodes: seq<Endpoint>, backs: seq<Endpoint?>) {
    |nodes| == |backs| && forall i :: 0 <= i < |nodes| ==> backs[i] == if i == 0 then null else nodes[i - 1]
  }

  ghost predicate BackLinked(nodes: seq<Endpoint>)
    reads nodes`pPrev
  {
    PointBack(nodes, Backs(nodes))
  }

  // --- adding to a list by relinking ------------------------------------------------------------

  /** The first place of `x`. */
  function Position<T(==)>(list: seq<T>, x: T): (r: nat)
    requires x in list
    ensures r < |list| && list[r] == x && forall j :: 0 <= j < r ==> list[j] != x
  {
    if list[0] == x then 0 else 1 + Position(list[1..], x)
  }

  /** An entry that is new goes to the end. One that is in the list already becomes its end:
      everything behind it drops out. */
  function Relinked<T(==)>(list: seq<T>, x: T): (r: seq<T>)
    ensures x !in list ==> r == list + [x]
    ensures x in list ==> r <= list
    ensures r != [] && r[|r| - 1] == x
  {
    if x in list then list[..Position(list, x) + 1] else list + [x]
  }

  lemma RelinkedDistinct<T>(list: seq<T>, x: T)
    requires Distinct(list)
    ensures Distinct(Relinked(list, x))
  {
  }

  lemma RelinkedWithin<T>(list: seq<T>, x: T, all: seq<T>)
    requires x in all && forall i :: 0 <= i < |list| ==> list[i] in all
    ensures forall i :: 0 <= i < |Relinked(list, x)| ==> Relinked(list, x)[i] in all
  {
  }

  /** Following the links, once the entry behind the former end is linked. */
  lemma RelinkedWalk(before: seq<Endpoint>, ep: Endpoint)
    requires before != [] && Distinct(before) && ep.pNext == null
    requires forall i, j :: 0 <= i < j < |before| && j == i + 1 && before[i] != ep ==> before[i].pNext == before[j]
    requires ep !in before ==> before[|before| - 1].pNext == ep
    ensures Walk(before[0], Relinked(before, ep))
  {
    var now := Relinked(before, ep);
    RelinkedDistinct(before, ep);
    forall i, j | 0 <= i < j < |now| && j == i + 1
      ensures now[i].pNext == now[j]
    {
      assert now[i] == before[i] && now[i] != ep;
      if j < |before| { assert now[j] == before[j]; }
    }
  }

  lemma RelinkedBacks(nodes: seq<Endpoint>, backs: seq<Endpoint?>, ep: Endpoint, now: seq<Endpoint?>)
    requires nodes != [] && Distinct(nodes) && |backs| == |nodes| && |now| == |Relinked(nodes, ep)|
    requires forall i :: 0 <= i < |now| - 1 ==> now[i] == backs[i]
    requires now[|now| - 1] == nodes[|nodes| - 1]
    ensures PointBack(Relinked(nodes, ep), now) <==> PointBack(nodes, backs) && ep !in nodes
  {
    var r := Relinked(nodes, ep);
    if ep in nodes {
      var p := Position(nodes, ep);
      assert |r| == p + 1 && now[p] == nodes[|nodes| - 1];
      assert p > 0 ==> nodes[p - 1] != nodes[|nodes| - 1];
    } else {
      assert now[|nodes|] == nodes[|nodes| - 1];
      if PointBack(r, now) {
        assert forall i :: 0 <= i < |nodes| ==> now[i] == backs[i];
      }
    }
  }

  /** `nodes` are the entries with the given numbers. */
  ghost predicate Named(all: seq<Endpoint>, nodes: seq<Endpoint>, list: seq<nat>) {
    |nodes| == |list| && forall i :: 0 <= i < |list| ==> list[i] < |all| && nodes[i] == all[list[i]]
  }

  /** Relinking by number is relinking by entry. */
  lemma RelinkedNames(all: seq<Endpoint>, nodes: seq<Endpoint>, list: seq<nat>, x: nat)
    requires Distinct(all) && Named(all, nodes, list) && x < |all|
    ensures Named(all, Relinked(nodes, all[x]), Relinked(list, x))
    ensures all[x] in nodes <==> x in list
  {
    assert forall i :: 0 <= i < |list| ==> (nodes[i] == all[x] <==> list[i] == x);
    if x in list {
      assert nodes[Position(list, x)] == all[x];
      assert Position(nodes, all[x]) == Position(list, x);
    } else {
      assert all[x] !in nodes;
    }
  }

  class Target {
    const EndPoint: seq<Endpoint>
    var EpCreditDistributionListHead: Endpoint?
    ghost var nodes: seq<Endpoint>

    ghost predicate Valid()
      reads this, nodes`pNext
    {
      && |EndPoint| == ENDPOINT_MAX && Distinct(EndPoint)
      && (forall i :: 0 <= i < |nodes| ==> nodes[i] in EndPoint)
      && Walk(EpCreditDistributionListHead, nodes)
    }

    /** Walks to the end of the list. */
    method LastEntry() returns (last: Endpoint)
      requires Valid() && nodes != []
      ensures last == nodes[|nodes| - 1]
    {
      var cur := EpCreditDistributionListHead;
      last := EpCreditDistributionListHead;
      ghost var i := 0;
      while cur != null
        invariant 0 <= i <= |nodes| && cur == At(nodes, i)
        invariant last == nodes[if i == 0 then 0 else i - 1]
        decreases |nodes| - i
      {
        last := cur;
        cur := cur.pNext;
        i := i + 1;
      }
    }

    /** Links an endpoint behind the last entry. The list stays free of cycles; the links back
        survive exactly when the endpoint is not in the list yet. */
    method AddToEndpointDistList(ep: Endpoint)
      requires Valid() && ep in EndPoint
      modifies this`EpCreditDistributionListHead, this`nodes, EndPoint`pNext, EndPoint`pPrev
      ensures Valid() && nodes == Relinked(old(nodes), ep)
      ensures BackLinked(nodes) <==> old(BackLinked(nodes)) && ep !in old(nodes)
    {
      if EpCreditDistributionListHead == null {
        EpCreditDistributionListHead := ep;
        ep.pNext := null;
        ep.pPrev := null;
        nodes := [ep];
        return;
      }
      LinkBehind(ep);
    }

    method LinkBehind(ep: Endpoint)
      requires Valid() && ep in EndPoint && nodes != []
      modifies this`nodes, EndPoint`pNext, EndPoint`pPrev
      ensures Valid() && nodes == Relinked(old(nodes), ep)
      ensures BackLinked(nodes) <==> old(BackLinked(nodes)) && ep !in old(nodes)
    {
      ghost var before, backs, now := nodes, Backs(nodes), Relinked(nodes, ep);
      RelinkedDistinct(nodes, ep);
      RelinkedWithin(nodes, ep, EndPoint);
      var last := LastEntry();
      last.pNext := ep;
      ep.pPrev := last;
      ep.pNext := null;
      nodes := now;
      RelinkedWalk(before, ep);
      RelinkedBacks(before, backs, ep, Backs(nodes));
    }

    /** The part of HTCConnectService that sets up the endpoint the target assigned. A send
        size above what the target supports is refused only after the endpoint was claimed,
        so that endpoint stays in use. */
    method SetupEndpoint(assignedEndpoint: nat, maxMsgSize: nat, serviceID: nat, MaxSendMsgSize: nat,
        MaxSendQueueDepth: int, TargetCreditSize: nat) returns (ok: bool)
      requires |EndPoint| == ENDPOINT_MAX && 0 < TargetCreditSize
      modifies EndPoint`ServiceID, EndPoint`MaxTxQueueDepth, EndPoint`TxCreditsPerMaxMsg
      ensures var claimed := assignedEndpoint < ENDPOINT_MAX && maxMsgSize != 0
        && old(EndPoint[assignedEndpoint].ServiceID) == 0;
        && ok == (claimed && MaxSendMsgSize <= maxMsgSize)
        && (claimed ==>
          && EndPoint[assignedEndpoint].ServiceID == serviceID
          && EndPoint[assignedEndpoint].MaxTxQueueDepth == MaxSendQueueDepth)
        && (ok ==> var size := if MaxSendMsgSize != 0 then MaxSendMsgSize else maxMsgSize;
                   EndPoint[assignedEndpoint].TxCreditsPerMaxMsg == CreditsPerMaxMsg(size, TargetCreditSize))
        && (forall ep :: ep in EndPoint && !(claimed && ep == EndPoint[assignedEndpoint]) ==>
              ep.ServiceID == old(ep.ServiceID) && ep.MaxTxQueueDepth == old(ep.MaxTxQueueDepth)
              && ep.TxCreditsPerMaxMsg == old(ep.TxCreditsPerMaxMsg))
    {
      if assignedEndpoint >= ENDPOINT_MAX || maxMsgSize == 0 {
        return false;
      }
      var pEndpoint := EndPoint[assignedEndpoint];
      if pEndpoint.ServiceID != 0 {
        return false;
      }
      pEndpoint.ServiceID := serviceID;
      pEndpoint.MaxTxQueueDepth := MaxSendQueueDepth;
      if MaxSendMsgSize != 0 {
        if MaxSendMsgSize > maxMsgSize {
          return false;
        }
        pEndpoint.TxCreditsPerMaxMsg := MaxSendMsgSize / TargetCreditSize;
      } else {
        pEndpoint.TxCreditsPerMaxMsg := maxMsgSize / TargetCreditSize;
      }
      if pEndpoint.TxCreditsPerMaxMsg == 0 {
        pEndpoint.TxCreditsPerMaxMsg := 1;
      }
      ok := true;
    }

    /** The entries of the list, by endpoint number. */
    ghost predicate Names(list: seq<nat>)
      reads this
    {
      |EndPoint| == ENDPOINT_MAX && Named(EndPoint, nodes, list)
    }

    ghost predicate Serves(ids: seq<nat>)
      reads this, EndPoint`ServiceID
    {
      |EndPoint| == |ids| == ENDPOINT_MAX && forall e :: 0 <= e < ENDPOINT_MAX ==> EndPoint[e].ServiceID == ids[e]
    }

    /** Builds the list: endpoint 0 first, then for every service of the caller the first
        endpoint bound to it. A list built before is started over. */
    method BuildDistList(services: seq<nat>, ghost ids: seq<nat>)
      requires Valid() && Serves(ids) && (nodes != [] ==> nodes[0] == EndPoint[0])
      modifies this`EpCreditDistributionListHead, this`nodes, EndPoint`pNext, EndPoint`pPrev
      ensures Valid() && Names(DistList(ids, services))
      ensures old(nodes) == [] ==> (BackLinked(nodes) <==> BoundOnce(ids, services))
    {
      AddToEndpointDistList(EndPoint[0]);
      assert nodes == [EndPoint[0]];
      ghost var back := BackLinked(nodes);
      for i := 0 to |services|
        invariant Built(ids, DistList(ids, services[..i]), back && BoundOnce(ids, services[..i]))
      {
        DistListGrows(ids, services, i);
        BoundOnceGrows(ids, services, i);
        AddService(services[i], ids, DistList(ids, services[..i]), back && BoundOnce(ids, services[..i]));
      }
      assert services[..|services|] == services;
    }

    /** The list so far, and whether its links back are exact. */
    ghost predicate Built(ids: seq<nat>, list: seq<nat>, exact: bool)
      reads this, nodes`pNext, nodes`pPrev, EndPoint`ServiceID
    {
      Valid() && Serves(ids) && Names(list) && (BackLinked(nodes) <==> exact)
    }

    /** Adds the first endpoint bound to a service, if there is one. */
    method AddService(service: nat, ghost ids: seq<nat>, ghost list: seq<nat>, ghost exact: bool)
      requires Built(ids, list, exact)
      modifies this`EpCreditDistributionListHead, this`nodes, EndPoint`pNext, EndPoint`pPrev
      ensures var k := FirstBound(ids, service, 1);
        Built(ids, if k < ENDPOINT_MAX then Relinked(list, k) else list, exact && (k < ENDPOINT_MAX ==> k !in list))
    {
      var ep := FindService(service, ids);
      if ep < ENDPOINT_MAX {
        AddNumbered(ep, ids, list, exact);
      }
    }

    method AddNumbered(ep: nat, ghost ids: seq<nat>, ghost list: seq<nat>, ghost exact: bool)
      requires Built(ids, list, exact) && ep < ENDPOINT_MAX
      modifies this`EpCreditDistributionListHead, this`nodes, EndPoint`pNext, EndPoint`pPrev
      ensures Built(ids, Relinked(list, ep), exact && ep !in list)
    {
      RelinkedNames(EndPoint, nodes, list, ep);
      AddToEndpointDistList(EndPoint[ep]);
    }

    method FindService(service: nat, ghost ids: seq<nat>) returns (ep: nat)
      requires Serves(ids)
      ensures ep == FirstBound(ids, service, 1)
    {
      ep := 1;
      while ep < ENDPOINT_MAX
        invariant 1 <= ep <= ENDPOINT_MAX && FirstBound(ids, service, 1) == FirstBound(ids, service, ep)
      {
        if EndPoint[ep].ServiceID == service {
          break;
        }
        ep := ep + 1;
      }
    }

    /** The default initial policy: even shares, stopping at the first endpoint whose share
        would not cover one maximum message. */
    method DefaultCreditInit(list: Endpoint?, ghost walk: seq<Endpoint>, totalCredits: nat)
      requires Walk(list, walk) && walk != []
      modifies walk`TxCredits, walk`TxCreditsAssigned, walk`TxCreditsMin, walk`TxCreditsNorm
      ensures Views(walk) == Shared(old(Views(walk)), totalCredits / |walk|)
    {
      var totalEps := CountList(list, walk);
      GrantShares(list, walk, totalCredits / totalEps);
    }

    /** As HTCStart calls it: over the list after endpoint 0. */
    method StartCredits(targetCredits: nat)
      requires Valid() && 1 < |nodes|
      modifies nodes`TxCredits, nodes`TxCreditsAssigned, nodes`TxCreditsMin, nodes`TxCreditsNorm
      ensures Views(nodes[1..]) == Shared(old(Views(nodes[1..])), targetCredits / (|nodes| - 1))
    {
      assert EpCreditDistributionListHead == nodes[0];
      DefaultCreditInit(EpCreditDistributionListHead.pNext, nodes[1..], targetCredits);
    }

    method GrantShares(list: Endpoint?, ghost walk: seq<Endpoint>, creditsPerEndpoint: nat)
      requires Walk(list, walk)
      modifies walk`TxCredits, walk`TxCreditsAssigned, walk`TxCreditsMin, walk`TxCreditsNorm
      ensures Views(walk) == Shared(old(Views(walk)), creditsPerEndpoint)
    {
      var cur := list;
      ghost var n, before := 0, Views(walk);
      while cur != null
        invariant 0 <= n <= |walk| && cur == At(walk, n)
        invariant forall j :: 0 <= j < n ==> walk[j].View() == ShareOf(before[j], creditsPerEndpoint)
        invariant forall j :: n <= j < |walk| ==> walk[j].View() == before[j]
        invariant n <= Covered(before, creditsPerEndpoint)
        decreases |walk| - n
      {
        if creditsPerEndpoint < cur.TxCreditsPerMaxMsg {
          break;
        }
        cur.SetShare(creditsPerEndpoint);
        cur := cur.pNext;
        n := n + 1;
      }
    }

    method CountList(list: Endpoint?, ghost walk: seq<Endpoint>) returns (totalEps: nat)
      requires Walk(list, walk)
      ensures totalEps == |walk|
    {
      var cur := list;
      totalEps := 0;
      while cur != null
        invariant 0 <= totalEps <= |walk| && cur == At(walk, totalEps)
        decreases |walk| - totalEps
      {
        cur := cur.pNext;
        totalEps := totalEps + 1;
      }
    }

    /** The default distribution after credits came back. */
    method DefaultCreditDist(list: Endpoint?, ghost walk: seq<Endpoint>)
      requires Walk(list, walk)
      modifies walk`TxCredits, walk`TxCreditsToDist
      ensures forall i :: 0 <= i < |walk| ==> walk[i].View() == Given(old(walk[i].View()))
    {
      var cur := list;
      ghost var n, before := 0, Views(walk);
      while cur != null
        invariant 0 <= n <= |walk| && cur == At(walk, n)
        invariant forall j :: 0 <= j < n ==> walk[j].View() == Given(before[j])
        invariant forall j :: n <= j < |walk| ==> walk[j].View() == before[j]
        decreases |walk| - n
      {
        cur.TakeBack();
        cur := cur.pNext;
        n := n + 1;
      }
    }

    /** The list is the one of the configuration. */
    ghost predicate Lists(cfg: Config)
      reads this, nodes`pNext
    {
      Valid() && cfg.Valid() && Names(cfg.distList)
    }

    /** One usable entry of a credit report. */
    method CreditEntry(entry: Report)
      requires |EndPoint| == ENDPOINT_MAX && Distinct(EndPoint) && entry.endpoint < ENDPOINT_MAX
      modifies EndPoint`TxCredits, EndPoint`TxCreditsToDist, EndPoint`TxQueueDepth
      ensures AllCredited(old(Views(EndPoint)), Views(EndPoint), [entry])
    {
      EndPoint[entry.endpoint].CreditBack(entry.endpoint == 0, entry.credits);
      OneEntry(entry);
    }

    /** The entries of a report up to the first bad endpoint, credited in order. */
    method CreditEntries(rpt: seq<Report>) returns (totalCredits: nat, doDist: bool)
      requires |EndPoint| == ENDPOINT_MAX && Distinct(EndPoint)
      modifies EndPoint`TxCredits, EndPoint`TxCreditsToDist, EndPoint`TxQueueDepth
      ensures AllCredited(old(Views(EndPoint)), Views(EndPoint), Usable(rpt))
      ensures totalCredits == TotalCredits(Usable(rpt)) && doDist == NeedsDistribution(Usable(rpt))
    {
      totalCredits, doDist := 0, false;
      var i := 0;
      ghost var before, used := Views(EndPoint), Usable(rpt);
      while i < |rpt|
        invariant i <= |used| && AllCredited(before, Views(EndPoint), used[..i])
        invariant totalCredits == TotalCredits(used[..i]) && doDist == NeedsDistribution(used[..i])
      {
        if rpt[i].endpoint >= ENDPOINT_MAX {
          break;
        }
        ghost var mid := Views(EndPoint);
        CreditEntry(rpt[i]);
        CreditedStep(before, mid, Views(EndPoint), used, i);
        ReportGrows(used, i);
        if rpt[i].endpoint != 0 {
          doDist := true;
        }
        totalCredits := totalCredits + rpt[i].credits;
        i := i + 1;
      }
      assert used[..i] == used;
    }

    /** HTCProcessCreditRpt up to the release of the lock; the result says whether the TX
        queues have to be looked at. */
    method ProcessCreditRpt(ghost cfg: Config, rpt: seq<Report>) returns (check: bool)
      requires Lists(cfg)
      modifies EndPoint`TxCredits, EndPoint`TxCreditsToDist, EndPoint`TxQueueDepth
      ensures forall e :: 0 <= e < ENDPOINT_MAX ==>
        EndPoint[e].View() == Reported(cfg, old(EndPoint[e].View()), e, rpt)
      ensures check == (TotalCredits(Usable(rpt)) != 0)
    {
      var totalCredits, doDist := CreditEntries(rpt);
      if doDist {
        Distribute(cfg);
      }
      check := totalCredits != 0;
    }

    /** The locked part of CompleteSentPacket for a failed packet: its credits are put up for
        distribution, which leaves endpoint 0 out. */
    method ReclaimCredits(ghost cfg: Config, ep: nat, creditsUsed: nat)
      requires Lists(cfg) && ep < ENDPOINT_MAX
      modifies EndPoint`TxCredits, EndPoint`TxCreditsToDist, EndPoint`TxQueueDepth
      ensures forall e :: 0 <= e < ENDPOINT_MAX ==>
        var failed := if e == ep
          then old(EndPoint[e].View()).(toDist := old(EndPoint[e].TxCreditsToDist) + creditsUsed)
          else old(EndPoint[e].View());
        EndPoint[e].View() == if InDistribution(cfg, e) then Given(failed) else failed
      ensures EndPoint[ep].TxQueueDepth == |EndPoint[ep].TxQueue|
    {
      EndPoint[ep].TxCreditsToDist := EndPoint[ep].TxCreditsToDist + creditsUsed;
      EndPoint[ep].TxQueueDepth := |EndPoint[ep].TxQueue|;
      Distribute(cfg);
    }

    /** Distribution over the list after its first entry. */
    method Distribute(ghost cfg: Config)
      requires Lists(cfg)
      modifies EndPoint`TxCredits, EndPoint`TxCreditsToDist
      ensures forall e :: 0 <= e < ENDPOINT_MAX ==>
        EndPoint[e].View() == if InDistribution(cfg, e) then Given(old(EndPoint[e].View())) else old(EndPoint[e].View())
    {
      ghost var walk := nodes[1..];
      assert EpCreditDistributionListHead == nodes[0];
      DefaultCreditDist(EpCreditDistributionListHead.pNext, walk);
    }
  }

  /** Every endpoint got the credits the report has for it. */
  ghost predicate AllCredited(before: seq<Ep>, now: seq<Ep>, used: seq<Report>) {
    |before| == |now| && forall e: nat :: e < |before| ==> now[e] == Credited(before[e], e, CreditsFor(used, e))
  }

  lemma OneEntry(entry: Report)
    ensures forall e: nat :: CreditsFor([entry], e) == if entry.endpoint == e then entry.credits else 0
  {
    assert [entry][..0] == [];
  }

  lemma CreditedStep(before: seq<Ep>, mid: seq<Ep>, now: seq<Ep>, used: seq<Report>, i: nat)
    requires i < |used| && AllCredited(before, mid, used[..i]) && AllCredited(mid, now, [used[i]])
    ensures AllCredited(before, now, used[..i + 1])
  {
    OneEntry(used[i]);
    ReportGrows(used, i);
  }

  /** One more entry of a report adds its credits to the endpoint it names. */
  lemma ReportGrows(rpt: seq<Report>, i: nat)
    requires i < |rpt|
    ensures forall e: nat ::
      CreditsFor(rpt[..i + 1], e) == CreditsFor(rpt[..i], e) + (if rpt[i].endpoint == e then rpt[i].credits else 0)
    ensures TotalCredits(rpt[..i + 1]) == TotalCredits(rpt[..i]) + rpt[i].credits
    ensures NeedsDistribution(rpt[..i + 1]) <==> NeedsDistribution(rpt[..i]) || rpt[i].endpoint != 0
  {
    assert rpt[..i + 1][..i] == rpt[..i] && rpt[..i + 1][i] == rpt[i];
    if NeedsDistribution(rpt[..i]) {
      var k :| 0 <= k < i && rpt[..i][k].endpoint != 0;
      assert rpt[..i + 1][k].endpoint != 0;
    }
  }

  function Views(eps: seq<Endpoint>): (r: seq<Ep>)
    reads eps
    ensures |r| == |eps| && forall i :: 0 <= i < |eps| ==> r[i] == eps[i].View()
  {
    seq(|eps|, i requires 0 <= i < |eps| reads eps => eps[i].View())
  }

  function ShareOf(ep: Ep, share: int): Ep
  {
    ep.(credits := share, share := share)
  }

  /** How many endpoints from the front are content with the share. */
  function Covered(eps: seq<Ep>, share: nat): (r: nat)
    ensures r <= |eps| && (r < |eps| ==> share < eps[r].perMaxMsg)
    ensures forall j :: 0 <= j < r ==> eps[j].perMaxMsg <= share
  {
    if eps == [] || share < eps[0].perMaxMsg then 0 else 1 + Covered(eps[1..], share)
  }

  /** Shares are handed out up to the first endpoint that asks for more than its share. */
  function Shared(eps: seq<Ep>, share: nat): (r: seq<Ep>)
    ensures |r| == |eps|
    ensures forall i :: 0 <= i < |eps| ==> r[i] == if i < Covered(eps, share) then ShareOf(eps[i], share) else eps[i]
  {
    seq(|eps|, i requires 0 <= i < |eps| => if i < Covered(eps, share) then ShareOf(eps[i], share) else eps[i])
  }

  function Assigned(eps: seq<Ep>): int
  {
    if eps == [] then 0 else eps[0].share + Assigned(eps[1..])
  }

  lemma SharedTail(eps: seq<Ep>, share: nat)
    requires eps != [] && eps[0].perMaxMsg <= share
    ensures Shared(eps, share)[1..] == Shared(eps[1..], share)
  {
  }

  lemma {:induction false} SharesAddUp(eps: seq<Ep>, share: nat)
    requires forall i :: 0 <= i < |eps| ==> eps[i].share == 0
    ensures Assigned(Shared(eps, share)) == Covered(eps, share) * share
  {
    if eps == [] || share < eps[0].perMaxMsg {
      assert Shared(eps, share) == eps;
      NothingAssigned(eps);
    } else {
      SharesAddUp(eps[1..], share);
      SharedTail(eps, share);
      MulSucc(Covered(eps[1..], share), share);
    }
  }

  lemma {:induction false} NothingAssigned(eps: seq<Ep>)
    requires forall i :: 0 <= i < |eps| ==> eps[i].share == 0
    ensures Assigned(eps) == 0
  {
    if eps != [] { NothingAssigned(eps[1..]); }
  }

  /** The credits assigned never exceed what the target offers; when every endpoint's
      largest message fits the even share, fewer credits than endpoints stay unassigned. */
  lemma InitialSharesFit(eps: seq<Ep>, totalCredits: nat)
    requires eps != [] && forall i :: 0 <= i < |eps| ==> eps[i].share == 0
    ensures var share := totalCredits / |eps|;
      && Assigned(Shared(eps, share)) <= totalCredits
      && ((forall i :: 0 <= i < |eps| ==> eps[i].perMaxMsg <= share) ==>
            totalCredits - Assigned(Shared(eps, share)) < |eps|)
  {
    var share := totalCredits / |eps|;
    SharesAddUp(eps, share);
    SharesWithin(Covered(eps, share), |eps|, totalCredits);
  }

  /** After the default policy has handed out shares, no run has more credits outstanding on
      the endpoints it served than the target offered. */
  lemma SharesNeverOverrunTarget(cfg: Config, states: seq<HtcSendProtocol.State>, steps: seq<HtcSendProtocol.Step>,
      k: nat, before: seq<Ep>, targetCredits: nat)
    requires HtcSendTheorems.IsRun(cfg, states, steps) && k <= |steps| && |states[0].conns| == ENDPOINT_MAX
    requires 1 < |cfg.distList| == |before| + 1 && forall i :: 0 <= i < |before| ==> before[i].credits == 0
    requires forall i :: 1 <= i < |cfg.distList| ==>
      states[0].conns[cfg.distList[i]].ep == Shared(before, targetCredits / |before|)[i - 1]
    ensures |states[k].conns| == ENDPOINT_MAX
      && HtcSendTheorems.TotalInFlight(states[k], cfg.distList[1..]) <= targetCredits
  {
    HtcSendTheorems.TargetIsNeverOverrun(cfg, states, steps, k, targetCredits);
  }

  /** The first endpoint from `k` on that is bound to the service. */
  function FirstBound(ids: seq<nat>, service: nat, k: nat): (r: nat)
    requires k <= |ids|
    ensures k <= r <= |ids| && (r < |ids| ==> ids[r] == service)
    ensures forall j :: k <= j < r ==> ids[j] != service
    decreases |ids| - k
  {
    if k == |ids| || ids[k] == service then k else FirstBound(ids, service, k + 1)
  }

  /** Endpoint 0 and the endpoints found for the services, linked in the caller's order. */
  function DistList(ids: seq<nat>, services: seq<nat>): (r: seq<nat>)
    requires 1 <= |ids|
    ensures r != [] && r[0] == 0
  {
    if services == [] then [0]
    else
      var list := DistList(ids, services[..|services| - 1]);
      var k := FirstBound(ids, services[|services| - 1], 1);
      if k < |ids| then Relinked(list, k) else list
  }

  lemma DistListGrows(ids: seq<nat>, services: seq<nat>, i: nat)
    requires 1 <= |ids| && i < |services|
    ensures var k := FirstBound(ids, services[i], 1);
      DistList(ids, services[..i + 1])
        == if k < |ids| then Relinked(DistList(ids, services[..i]), k) else DistList(ids, services[..i])
  {
    assert services[..i + 1][..i] == services[..i];
  }

  /** What is built is always a list the send protocol works with. */
  lemma {:induction false} DistListFits(cost: Packet -> nat, ids: seq<nat>, services: seq<nat>)
    requires |ids| == ENDPOINT_MAX
    ensures Config(cost, DistList(ids, services)).Valid()
  {
    if services != [] {
      var init := services[..|services| - 1];
      DistListFits(cost, ids, init);
      RelinkedDistinct(DistList(ids, init), FirstBound(ids, services[|services| - 1], 1));
    }
  }

  /** Only endpoint 0 and endpoints bound to one of the services are listed. */
  lemma {:induction false} DistListServes(ids: seq<nat>, services: seq<nat>)
    requires 1 <= |ids|
    ensures forall x :: x in DistList(ids, services) ==>
      x == 0 || (1 <= x < |ids| && ids[x] in services && FirstBound(ids, ids[x], 1) == x)
  {
    if services != [] {
      DistListServes(ids, services[..|services| - 1]);
      assert forall s :: s in services <==> s in services[..|services| - 1] || s == services[|services| - 1];
    }
  }

  /** No service that some endpoint is bound to is given again. */
  ghost predicate BoundOnce(ids: seq<nat>, services: seq<nat>)
    requires 1 <= |ids|
  {
    services == [] ||
    (var init, last := services[..|services| - 1], services[|services| - 1];
      BoundOnce(ids, init) && (FirstBound(ids, last, 1) < |ids| ==> last !in init))
  }

  /** Then all of them are listed. */
  lemma {:induction false} DistListKnows(ids: seq<nat>, services: seq<nat>)
    requires 1 <= |ids| && BoundOnce(ids, services)
    ensures forall x :: x in DistList(ids, services) <==>
      x == 0 || (1 <= x < |ids| && ids[x] in services && FirstBound(ids, ids[x], 1) == x)
  {
    if services != [] {
      var init, last := services[..|services| - 1], services[|services| - 1];
      DistListKnows(ids, init);
      assert forall s :: s in services <==> s in init || s == last;
    }
  }

  /** Another service is no repeat exactly when its endpoint is not listed. */
  lemma BoundOnceGrows(ids: seq<nat>, services: seq<nat>, i: nat)
    requires 1 <= |ids| && i < |services|
    ensures var k, before := FirstBound(ids, services[i], 1), services[..i];
      BoundOnce(ids, services[..i + 1]) <==> BoundOnce(ids, before) && (k < |ids| ==> k !in DistList(ids, before))
  {
    assert services[..i + 1][..i] == services[..i];
    if BoundOnce(ids, services[..i]) { DistListKnows(ids, services[..i]); }
  }

  /** One more service drops endpoints from the list exactly when its endpoint is listed, but
      not last. */
  lemma RepeatDropsIff(ids: seq<nat>, services: seq<nat>, service: nat)
    requires |ids| == ENDPOINT_MAX
    ensures var list, k := DistList(ids, services), FirstBound(ids, service, 1);
      (exists x :: x in list && x !in DistList(ids, services + [service])) <==>
      k < |ids| && k in list && list[|list| - 1] != k
  {
    assert (services + [service])[..|services|] == services;
    var list, k := DistList(ids, services), FirstBound(ids, service, 1);
    DistListFits(p => 0, ids, services);
    RelinkedDropsIff(list, k);
    assert DistList(ids, services + [service]) == if k < |ids| then Relinked(list, k) else list;
  }

  lemma RelinkedDropsIff<T>(list: seq<T>, x: T)
    requires Distinct(list) && list != []
    ensures (exists y :: y in list && y !in Relinked(list, x)) <==> x in list && list[|list| - 1] != x
  {
    if x in list && list[|list| - 1] != x {
      var y := list[|list| - 1];
      assert y in list && y !in list[..Position(list, x) + 1];
    } else if x in list {
      assert list[..|list|] == list;
    }
  }

  /** Services 7, 8 and 7 again: the endpoint of service 8 is not in the list any more, so that
      it gets no credits back and nobody looks at its queue. */
  lemma RepeatDropsAnEndpoint()
    ensures var ids := [0, 7, 8, 0, 0, 0, 0, 0, 0];
      DistList(ids, [7, 8]) == [0, 1, 2] && DistList(ids, [7, 8, 7]) == [0, 1]
  {
    var ids := [0, 7, 8, 0, 0, 0, 0, 0, 0];
    assert [7, 8, 7][..2] == [7, 8] && [7, 8][..1] == [7] && [7][..0] == [];
    assert FirstBound(ids, 7, 1) == 1 && FirstBound(ids, 8, 1) == 2;
    assert DistList(ids, [7]) == [0, 1];
    assert DistList(ids, [7, 8]) == [0, 1, 2];
    assert Position([0, 1, 2], 1) == 1;
  }
}
