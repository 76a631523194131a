# AR6K host driver: transport and radar detection

This project models two components of the AR6K host driver and proves properties of the model with
Dafny 4.11. `dafny verify dfyconfig.toml` checks everything.

**HTC, the host-target transport** (`host/htc2`). Any number of threads queue packets on the endpoints of a
connection to the target. Packets consume credits, which the target reports back; one thread at a time drains an
endpoint and hands packets to the device, bundled where possible. In the other direction look-aheads announce
messages, buffers are taken for them, batches are fetched, headers and trailers are processed, and packets are
handed to the driver.

- `CreditMath`: padding, credits and shares.
- `HtcSendSpec`: what each lock-held section of the send path computes, on values.
- `HtcSend`, `HtcServices`: the same sections in place, on endpoint and target objects, proved against those
  functions; connecting an endpoint, the linked credit distribution list, the default credit policy.
- `HtcSendConn`, `HtcSendProtocol`, `HtcSendTheorems`: any number of threads interleaving those sections as a
  transition system; its invariant; what holds over every run.
- `HtcSendBundle`: handing the drainer's queue to the device in scatter requests.
- `HtcRecvTrailer`, `HtcRecvPacket`: the record parser on arbitrary bytes, its inverse, and the message header.
- `HtcRecvBuffers`: taking, preparing, recycling and supplying receive buffers.
- `HtcRecvFetch`, `HtcRecvPending`: fetching a batch, and what becomes of it when the device or a message fails.
- `HtcRecvIndicate`: the indication queue with any number of concurrent drain calls.

**DFS radar detection** (`host/dfs`, over `include/queue.h`).

- `Stailq`, `Tailq`: the list macros, in place, for lists of any length.
- `Ring`, `DfsRing`, `DfsBin5`: ring buffers, the delay line of a filter, the long-pulse detector.
- `DfsTimestamp`: extending wrapping time stamps.
- `DfsPeaks`: the histogram of pulse widths, its three most frequent signatures and the test for traffic.
- `DfsTable`: filter types and the index from durations to types.
- `DfsEvents`: the pool of events shared by three queues.

The device layer is an arbitrary environment: how a transfer is padded, whether a scatter list is granted, whether
a request succeeds, what callbacks decide, and when a completion or a report arrives are inputs or steps of the
models. `SeqFacts` holds facts about sequences.

## Main results

- Credits of an endpoint are conserved over every interleaving and never negative, and the target is never
  overrun (`CreditsAreConserved`, `AssignedCreditsAreConserved`, `SharesNeverOverrunTarget`), provided that reports
  return no more than was consumed.
- What callers bring is accepted or waits for the lock (`SubmittedAreAccepted`), and without a send-full callback all of
  it is let in (`SendPktsMultiple`). Accepted packets reach the device exactly once, in order and numbered
  (`ExactlyOnceInOrder`), bundled or not (`DrainKeepsOrder`), with one drainer at a time (`SingleDrainer`).
- In any state of any run a packet that could be sent is unattended exactly when a failed send or a flush uncovered
  it and nobody came by since (`NoLostWakeup`); the exact condition for each of the two is proved from any state of
  the protocol (`FailedSendStrandsIff`, `FlushStrandsIff`), and that no other step does so (`OnlyUncoveringStrands`).
  Without those events a quiet system has drained every queue whose head the endpoint can afford
  (`QuietMeansDrained`, `QuietMeansDrainedByLength`).
- A trailer is accepted exactly when it is a string of whole records without an overlong bundle report
  (`AcceptedIff`); what it leaves is said for arbitrary bytes, refused ones as well (`AcceptedLeaves`,
  `RefusedLeaves`, `Kinds`), and printed records are read back (`RoundTrip`). So it is for messages, with a trailer and
  without (`PlainMessage`, `TrailedMessage`, `TrailerLeaves`).
- Announced messages are fetched exactly once and in order (`FetchedOnceInOrder`), every packet of a batch is
  indicated, recycled or lost exactly once (`BatchAccounts`), and received packets are indicated exactly once and
  in order by any number of draining calls (`IndicatedOnceInOrder`). Fetching follows a plan up to the first request
  that fails (`FetchFollowsPlan`), and from plan, failures and headers alone it is decided whether anything is lost
  (`NothingLostIff`) or a failure is masked (`FailureMaskedIff`).
- Every announced message, and every one that follows it, gets a buffer (`EveryMessageGetsABuffer`); buffers fill their
  messages in order, and each status is explained (`WordsFill`); none is lost
  (`WordsAccount`, `FailureAccounts`).
- Extended time stamps strictly increase over a stream exactly when none of its events meets a condition on two
  neighbours (`StampsIncreaseIff`), and keep their true distances exactly when every gap meets another
  (`StreamIsRightIff`), for any width of the remembered part.
- Over any run a delay line holds the longest end of everything added since it was last dropped that its filter can
  use, exactly as long as no sum wraps to within the filter (`HoldsTheLatest`, `ShortRunsHold`).
- The width a pulse counts for is decided by how many pulses of the maximum width came before it (`WidthIs`). The peak
  list kept up event by event is the top three of the histogram, and the sum that of all signatures, over
  runs with detections as well (`RunIsRight`, `IncrementalIsRight`, `TopThreeIsBest`), so that the test for traffic is
  decided by them, whatever the memory behind the list holds (`TrafficIff`, `TrafficOverRuns`).
- The index of filter types agrees with a linear scan (`InitRadarFilters`, `MatchingIsScan`, `Scan`); every event is in
  exactly one queue (`Shift` and the methods of `DfsEvents.Dfs`).

## Where the code departs from what it promises

The models follow the code. In each case a lemma or a contract says exactly when the promise holds, or gives an input.

- A failed send gives its credits back but looks at no queue (`host/htc2/htc_send.c:85-98`), and a flush of selected
  packets looks at none either (`host/htc2/htc_send.c:842-868`): both can leave a sendable packet behind unattended
  (`FailedSendStrandsIff`, `FlushStrandsIff`, with the runs `FailedSendStrandsAPacket` and `FlushStrandsAPacket`).
- The credits of packets that failed on endpoint 0 are never distributed, since distribution starts after it
  (`host/htc2/htc_send.c:93-96`, `Endpoint0LosesFailedCredits`).
- The credits of a maximum message are rounded down and leave out its header and padding, so that one fits only if
  its padded transfer fits a single credit (`host/htc2/htc_services.c:279-286`, `MaxMessageFitsShare`,
  `MaxMessageMissesShare`).
- A service given again to the distribution list drops every endpoint listed behind its own
  (`host/htc2/htc_services.c:322-331`, `RepeatDropsIff`, `RepeatDropsAnEndpoint`).
- A connection refused for its send size leaves the endpoint claimed (`host/htc2/htc_services.c:259-278`, `SetupEndpoint`).
- Padding of a message longer than a credit adds the remainder where its complement is meant
  (`host/htc2/htc_send.c:384`, `FillsItsCreditsIff`, `WrongPad`).
- A batch that does not travel in one request and ends in a bundle has all its look-aheads ignored
  (`host/htc2/htc_recv.c:1046-1050`, `LastAnnouncesIff`, `AllIgnored`), and a request without entries
  is submitted when the first packet does not fit (`host/htc2/htc_recv.c:1038-1079`, `EmptyRequestIff`).
- In synchronous operation the packet in hand is dropped when its read or its header fails; moreover, processing the
  headers replaces the status of a failed fetch, so that the rest of the batch is dropped and success is returned; and
  packets of a scatter request that failed are processed as if they had been read (`host/htc2/htc_recv.c:1206-1312`,
  `NothingLostIff`, `SinglesLoseNothingIff`, `FailureMaskedIff`, `MaskedLoss`, `FailedRequestIsProcessed`).
- Dropping the pulses of a fixed pattern leaves the first index of the ring wrong unless it was empty or full
  (`host/dfs/dfs_bindetects.c:163-165`, `DropAll`). No verdict comes of it: filters for fixed patterns test only the
  number of pulses, which the first index has no part in (`HistoryIsUnique`).
- The sum that trims a delay line has 32 bits and can wrap to within the filter length
  (`host/dfs/dfs_bindetects.c:118-126`, `StopsRightIff`, `WrapKeepsAnOldPulse`).
- The extension of time stamps loses one period over a gap of more than one (`host/dfs/dfs_process_radarevent.c:151-166`,
  `GapIsRightIff`, `WideGapSeen`), and the field that remembers the last stamp has 16 bits for a 32-bit stamp
  (`host/include/dfs_host.h:58-59` and 253), so that wraps go unnoticed and stamps fall back (`StampsIncreaseIff`,
  `ShippedRegisterLosesAWrap`). A full stamp that falls takes the prefix back by two periods (`FullFallsBack`). A stamp
  that falls back empties the ring of the long-pulse detector (`host/dfs/dfs_fcc_bin5.c:31-60`, `FallingBackForgets`).
- A short pulse added to one of the maximum width makes the next pulse count for a maximum one
  (`host/dfs/dfs_ar.c:92-95`, `WidthIs`, `ShortCountsAsLong`), and a roll-over of the 16-bit stamp is taken for one of
  15 bits, so that sums across it are thrown away (`host/dfs/dfs_ar.c:105-111`, `RollOverIsMissed`).
- The test for traffic reads one entry behind the peak list, on a little-endian host the low half of the number of
  radar types (`host/include/dfs_host.h:313-314`), and counts the entries in use less one: one peak less until types
  are configured, and the bin of that number on top of the peaks from then on (`host/dfs/dfs_ar.c:170-198`,
  `TrafficIff`, `NothingBehind`, `EntryBehind`). Its sum is not started over between events of a call
  (`host/dfs/dfs_ar.c:189-205`, `SumRunsOn`).
- A type of filters has ten places and no check for an eleventh pulse (`host/dfs/dfs_init.c:301`, `InitRadarFilters`,
  `OverrunsGrow`).

Source paths above are relative to `AR6kSDK.build_3.1_RC.563/`.

## Model

| member | source | states |
|---|---|---|
| CreditMath.PaddedLength | AR6kSDK.build_3.1_RC.563/host/htc2/AR6000/ar6k.h:173-174 | A transfer is rounded up to the next whole number of device blocks. |
| CreditMath.CreditsRequired | AR6kSDK.build_3.1_RC.563/host/htc2/htc_send.c:176-188 | The smallest number of credits, at least one, whose bytes cover the transfer. |
| CreditMath.CreditsRequiredIsLeast | AR6kSDK.build_3.1_RC.563/host/htc2/htc_send.c:176-190 | A transfer needs at most n credits exactly when n credits hold its bytes. |
| CreditMath.CreditsPerMaxMsg | AR6kSDK.build_3.1_RC.563/host/htc2/htc_services.c:271-286 | The credits assumed for a maximum message: its size in whole credits, rounded down, at least one. |
| CreditMath.MaxMessageFitsShare | AR6kSDK.build_3.1_RC.563/host/htc2/htc_services.c:271-286 | A maximum message is charged no more than the share computed for it exactly when its padded transfer, header included, fits that share; and that is exactly when it fits one credit. |
| CreditMath.MaxMessageMissesShare | AR6kSDK.build_3.1_RC.563/host/htc2/htc_services.c:271-286 | Two concrete maximum sizes, one credit and one byte less, that are charged two credits for a share of one. |
| HtcSend.CalcCreditsRequired | AR6kSDK.build_3.1_RC.563/host/htc2/htc_send.c:174-188 | The branches of the code compute the least number of credits that covers the padded message with its header. |
| HtcSendSpec.PullKeepsPackets | AR6kSDK.build_3.1_RC.563/host/htc2/htc_send.c:163-263 | Taking packets while credits last moves a front of the queue and keeps the rest, in order. |
| HtcSendSpec.PullConserves | AR6kSDK.build_3.1_RC.563/host/htc2/htc_send.c:190-216 | Credits left plus credits charged are the credits there were; they never go negative; taking stops only at a packet that cannot be afforded. |
| HtcSendSpec.PullNumbers | AR6kSDK.build_3.1_RC.563/host/htc2/htc_send.c:248-261 | Packets taken are numbered consecutively modulo 256 and remember what they cost. |
| HtcSendSpec.SplitLosesNothing | AR6kSDK.build_3.1_RC.563/host/htc2/htc_send.c:512-569 | Every packet a caller offers is either let in or left for the caller. |
| HtcSendSpec.SplitKeepsOrder | AR6kSDK.build_3.1_RC.563/host/htc2/htc_send.c:512-569 | What fits goes in first, then the overflow the callback keeps, each part in the order offered. |
| HtcSendSpec.SplitRespectsLimit | AR6kSDK.build_3.1_RC.563/host/htc2/htc_send.c:512-569 | When the callback keeps nothing, the queue limit is respected. |
| HtcSendSpec.SplitWithoutCallback | AR6kSDK.build_3.1_RC.563/host/htc2/htc_send.c:529-532 | Without a callback every packet is let in, whatever the limit. |
| HtcSendSpec.EnterKeepsPackets | AR6kSDK.build_3.1_RC.563/host/htc2/htc_send.c:584-623 | Whether the sender drains or not: what was queued and what it brought is taken or queued, in that order. |
| HtcSendSpec.JudgeIsSelection | AR6kSDK.build_3.1_RC.563/host/htc2/htc_send.c:546-563 | Walking the overflow partitions it by the verdict of the callback. |
| HtcSendSpec.FlushSplits | AR6kSDK.build_3.1_RC.563/host/htc2/htc_send.c:853-865 | A flush partitions the queue by the tag. |
| HtcSendSpec.FlushIdle | AR6kSDK.build_3.1_RC.563/host/htc2/htc_send.c:853-865 | A flush that discards nothing leaves the queue as it was; tag 0 empties it. |
| HtcSendSpec.Usable | AR6kSDK.build_3.1_RC.563/host/htc2/htc_send.c:769-773 | A credit report is used up to, not including, the first entry that names no endpoint. |
| HtcSendSpec.CreditsNameTheEndpoint | AR6kSDK.build_3.1_RC.563/host/htc2/htc_send.c:775-815 | An endpoint only gets credits from an entry that names it. |
| HtcSendSpec.TotalIsZeroIff | AR6kSDK.build_3.1_RC.563/host/htc2/htc_send.c:757-836 | A report makes no queue be looked at exactly when none of its usable entries brings credits. |
| HtcSend.Endpoint.TakeHead | AR6kSDK.build_3.1_RC.563/host/htc2/htc_send.c:214-261 | The head packet is charged, numbered and marked as needing credits exactly when fewer than a maximum message are left. |
| HtcSend.Endpoint.TakeAffordable | AR6kSDK.build_3.1_RC.563/host/htc2/htc_send.c:176-261 | One pass of the loop takes the head packet when its credits are there, and stops otherwise. |
| HtcSend.Endpoint.GetHTCSendPackets | AR6kSDK.build_3.1_RC.563/host/htc2/htc_send.c:150-266 | The loop takes exactly what the specification takes. |
| HtcSend.Endpoint.AdmitPackets | AR6kSDK.build_3.1_RC.563/host/htc2/htc_send.c:512-573 | The two loops before the lock split the caller's queue as specified; without a callback they let all of it in. |
| HtcSend.Endpoint.JudgeOverflow | AR6kSDK.build_3.1_RC.563/host/htc2/htc_send.c:546-563 | The callback decides on each packet beyond the limit, in order. |
| HtcSend.Endpoint.TakeTxLock | AR6kSDK.build_3.1_RC.563/host/htc2/htc_send.c:582-623 | Queueing, the single-drainer counter and the first turn. |
| HtcSend.Endpoint.DrainTurn | AR6kSDK.build_3.1_RC.563/host/htc2/htc_send.c:606-623 | A turn under the lock takes what is affordable; taking nothing resets the counter. |
| HtcSend.Endpoint.SendPktsMultiple | AR6kSDK.build_3.1_RC.563/host/htc2/htc_send.c:512-710 | Nothing offered is an error. Without a callback everything offered is taken or queued, in order, behind what was queued, and nothing completed; with one, what fits and what the callback keeps, the rest being completed with the right status. |
| HtcSend.Endpoint.FlushTagged | AR6kSDK.build_3.1_RC.563/host/htc2/htc_send.c:842-868 | The loop under the lock separates kept from discarded packets. |
| HtcSend.Endpoint.CreditBack | AR6kSDK.build_3.1_RC.563/host/htc2/htc_send.c:807-821 | Endpoint 0 gets credits at once, the others for distribution. |
| HtcSend.Endpoint.SetShare | AR6kSDK.build_3.1_RC.563/host/htc2/htc_services.c:364-374 | The default share becomes both the credits and the credits assigned. |
| HtcSend.Endpoint.TakeBack | AR6kSDK.build_3.1_RC.563/host/htc2/htc_services.c:386-396 | The default distribution hands an endpoint whatever waits for it. |
| HtcServices.Target.SetupEndpoint | AR6kSDK.build_3.1_RC.563/host/htc2/htc_services.c:233-291 | Exactly when a connection is accepted, its credit figure and queue limit, that a refused send size leaves the endpoint claimed, and that no other endpoint is touched. |
| HtcServices.Target.StartCredits | AR6kSDK.build_3.1_RC.563/host/htc2/htc.c:405-410 | Shares go to the list after endpoint 0. |
| HtcServices.Target.AddService | AR6kSDK.build_3.1_RC.563/host/htc2/htc_services.c:437-445 | The first endpoint bound to a service, if any, is linked behind the list; the links back stay exact exactly when it was not listed yet. |
| HtcServices.Target.LastEntry | AR6kSDK.build_3.1_RC.563/host/htc2/htc_services.c:322-327 | The walk ends at the last entry of the list. |
| HtcServices.Target.AddToEndpointDistList | AR6kSDK.build_3.1_RC.563/host/htc2/htc_services.c:308-332 | For any endpoint, listed already or not: the list stays free of cycles and is what relinking makes of it; the links back stay exact exactly when the endpoint is new. |
| HtcServices.Target.FindService | AR6kSDK.build_3.1_RC.563/host/htc2/htc_services.c:439-445 | The scan finds the first endpoint bound to the service. |
| HtcServices.Target.BuildDistList | AR6kSDK.build_3.1_RC.563/host/htc2/htc_services.c:403-449 | For any services, repeated or not: the list built is the specified one; its links back are exact exactly when no bound service is repeated. |
| HtcServices.DistListFits | AR6kSDK.build_3.1_RC.563/host/htc2/htc_services.c:403-449 | For any services the list starts with endpoint 0 and names no endpoint twice. |
| HtcServices.DistListKnows | AR6kSDK.build_3.1_RC.563/host/htc2/htc_services.c:430-449 | When no bound service is repeated, an endpoint is listed exactly when it is 0 or the first one bound to one of the services. |
| HtcServices.DistListServes | AR6kSDK.build_3.1_RC.563/host/htc2/htc_services.c:430-449 | For any services, only endpoint 0 and the first endpoints bound to the services are listed. |
| HtcServices.RelinkedWalk | AR6kSDK.build_3.1_RC.563/host/htc2/htc_services.c:308-332 | Following the links after relinking visits a new entry last; the walk ends at one that was listed before. |
| HtcServices.RepeatDropsIff | AR6kSDK.build_3.1_RC.563/host/htc2/htc_services.c:322-331 | One more service drops endpoints from the list exactly when its endpoint is listed already, and not last. |
| HtcServices.RepeatDropsAnEndpoint | AR6kSDK.build_3.1_RC.563/host/htc2/htc_services.c:322-331 | A concrete order of services for which one endpoint is dropped. |
| HtcServices.BoundOnceGrows | AR6kSDK.build_3.1_RC.563/host/htc2/htc_services.c:430-449 | A service repeats a bound one exactly when its endpoint is listed already. |
| HtcServices.Target.CountList | AR6kSDK.build_3.1_RC.563/host/htc2/htc_services.c:345-350 | Counts the entries of the list. |
| HtcServices.Target.GrantShares | AR6kSDK.build_3.1_RC.563/host/htc2/htc_services.c:355-375 | Shares are handed out up to the first endpoint whose maximum message exceeds its share. |
| HtcServices.Target.DefaultCreditInit | AR6kSDK.build_3.1_RC.563/host/htc2/htc_services.c:337-377 | Even shares of the credits the target offers. |
| HtcServices.InitialSharesFit | AR6kSDK.build_3.1_RC.563/host/htc2/htc_services.c:345-375 | Assigned credits never exceed the offer; when all endpoints are served, fewer credits than endpoints stay unassigned. |
| HtcServices.SharesNeverOverrunTarget | AR6kSDK.build_3.1_RC.563/host/htc2/htc_services.c:345-375 | After the default initial policy no run has more credits outstanding than the target offered. |
| HtcServices.Target.DefaultCreditDist | AR6kSDK.build_3.1_RC.563/host/htc2/htc_services.c:380-401 | Every listed endpoint gets back what waits for it. |
| HtcServices.Target.CreditEntries | AR6kSDK.build_3.1_RC.563/host/htc2/htc_send.c:769-824 | The loop over a report credits every endpoint with the sum of its usable entries. |
| HtcServices.Target.ProcessCreditRpt | AR6kSDK.build_3.1_RC.563/host/htc2/htc_send.c:757-838 | Every endpoint after a whole report, and whether queues have to be looked at. |
| HtcServices.Target.Distribute | AR6kSDK.build_3.1_RC.563/host/htc2/htc_send.c:828-834 | Distribution runs over the list after its first entry. |
| HtcServices.Target.ReclaimCredits | AR6kSDK.build_3.1_RC.563/host/htc2/htc_send.c:92-101 | A failed packet's credits are distributed, except on endpoint 0. |
| HtcSendConn.PassedOk | AR6kSDK.build_3.1_RC.563/host/htc2/htc_send.c:606-623 | A turn of the drain keeps credits, order and numbering, and leaves no affordable head packet. |
| HtcSendConn.HandedOverOk | AR6kSDK.build_3.1_RC.563/host/htc2/htc_send.c:627-654 | Handing packets to the device keeps them accounted for. |
| HtcSendConn.DeliveredOk | AR6kSDK.build_3.1_RC.563/host/htc2/htc_send.c:105-115 | A successful completion leaves the credits with the target. |
| HtcSendConn.FailedOk | AR6kSDK.build_3.1_RC.563/host/htc2/htc_send.c:81-102 | A failed completion gives the credits back for distribution. |
| HtcSendConn.CreditsReportedOk | AR6kSDK.build_3.1_RC.563/host/htc2/htc_send.c:757-836 | An honest report moves credits from the target to the endpoint. |
| HtcSendConn.FlushedOk | AR6kSDK.build_3.1_RC.563/host/htc2/htc_send.c:842-868 | A flush takes packets out of the queue and nothing else. |
| HtcSendProtocol.Apply | AR6kSDK.build_3.1_RC.563/host/htc2/htc_send.c:481-665 | Every step keeps the number of connections and threads. |
| HtcSendProtocol.TakeLockOk | AR6kSDK.build_3.1_RC.563/host/htc2/htc_send.c:582-600 | Entering the queue, busy or free, keeps the invariant. |
| HtcSendProtocol.RelockOk | AR6kSDK.build_3.1_RC.563/host/htc2/htc_send.c:606-665 | Another turn, or leaving the drain, keeps the invariant. |
| HtcSendProtocol.HandOverOk | AR6kSDK.build_3.1_RC.563/host/htc2/htc_send.c:620-656 | The unlocked part of the drain keeps the invariant. |
| HtcSendProtocol.DeliverOk | AR6kSDK.build_3.1_RC.563/host/htc2/htc_send.c:105-115 | A completion keeps the invariant. |
| HtcSendProtocol.FailSendOk | AR6kSDK.build_3.1_RC.563/host/htc2/htc_send.c:81-102 | A failed send keeps the invariant. |
| HtcSendProtocol.ReportCreditsOk | AR6kSDK.build_3.1_RC.563/host/htc2/htc_send.c:757-838 | A credit report keeps the invariant. |
| HtcSendProtocol.InactiveOk | AR6kSDK.build_3.1_RC.563/host/htc2/htc_send.c:962-1009 | An endpoint going inactive keeps the invariant. |
| HtcSendProtocol.VisitOk | AR6kSDK.build_3.1_RC.563/host/htc2/htc_send.c:725-754 | The unlocked look at a queue keeps the invariant. |
| HtcSendProtocol.FlushOk | AR6kSDK.build_3.1_RC.563/host/htc2/htc_send.c:842-868 | A flush keeps the invariant. |
| HtcSendProtocol.StepOk | AR6kSDK.build_3.1_RC.563/host/htc2/htc_send.c:481-838 | Every step of every thread keeps the invariant. |
| HtcSendProtocol.FailedSendStrandsIff | AR6kSDK.build_3.1_RC.563/host/htc2/htc_send.c:81-102 | From any state of the protocol: a failed send leaves a sendable packet unattended exactly when nobody was at work on the endpoint and the credits at hand with those that came back cover the head of its queue. On endpoint 0 it changes nothing. |
| HtcSendProtocol.FlushStrandsIff | AR6kSDK.build_3.1_RC.563/host/htc2/htc_send.c:842-868 | From any state of the protocol: a flush does so exactly when nobody was at work on the endpoint and the first packet it keeps is covered by the credits at hand. |
| HtcSendProtocol.OnlyUncoveringStrands | AR6kSDK.build_3.1_RC.563/host/htc2/htc_send.c:481-868 | No other step, and neither of these two on any other endpoint, leaves a sendable packet unattended. |
| HtcSendProtocol.StepBrings | AR6kSDK.build_3.1_RC.563/host/htc2/htc_send.c:481-710 | No step loses a packet on its way from a caller into a queue, or makes one up. |
| HtcSendProtocol.LooksAtAll | AR6kSDK.build_3.1_RC.563/host/htc2/htc_send.c:832-838 | A report that brings credits, or an endpoint going inactive, makes its thread look at every listed endpoint. |
| HtcSendProtocol.ThreadsGoOn | AR6kSDK.build_3.1_RC.563/host/htc2/htc_send.c:582-665 | A thread that waits for a lock or drains can always take its next step. |
| HtcSendProtocol.TakeTxLockIsStep | AR6kSDK.build_3.1_RC.563/host/htc2/htc_send.c:582-623 | The section proved in place is the step taken at the lock. |
| HtcSendProtocol.DrainTurnIsStep | AR6kSDK.build_3.1_RC.563/host/htc2/htc_send.c:606-665 | The turn proved in place is the step of a draining thread. |
| HtcSendTheorems.RunOk | AR6kSDK.build_3.1_RC.563/host/htc2/htc_send.c:481-838 | The invariant holds in every state of every run. |
| HtcSendTheorems.CreditsAreConserved | AR6kSDK.build_3.1_RC.563/host/htc2/htc_send.c:81-251 | In every state of every run, credits at hand, waiting, with the drainer, in the device and with the target add up to what the endpoint started with, and none is negative. |
| HtcSendTheorems.AssignedCreditsAreConserved | AR6kSDK.build_3.1_RC.563/host/htc2/htc_send.c:81-251 | For a listed endpoint other than 0, credits at hand and in flight always add up to those assigned. |
| HtcSendTheorems.TargetIsNeverOverrun | AR6kSDK.build_3.1_RC.563/host/htc2/htc_services.c:345-375 | The listed endpoints together never have more credits outstanding than the target offered. |
| HtcSendTheorems.Endpoint0LosesFailedCredits | AR6kSDK.build_3.1_RC.563/host/htc2/htc_send.c:92-101 | On endpoint 0 the credits of failed packets stay undistributed for good. |
| HtcSendTheorems.SingleDrainer | AR6kSDK.build_3.1_RC.563/host/htc2/htc_send.c:592-600 | At most one thread drains an endpoint, and the counter says whether one does. |
| HtcSendTheorems.ExactlyOnceInOrder | AR6kSDK.build_3.1_RC.563/host/htc2/htc_send.c:584-654 | Accepted packets are what the device got, what the drainer holds and what is queued, in that order; the k-th carries number k modulo 256 and its cost. |
| HtcSendTheorems.SubmittedAreAccepted | AR6kSDK.build_3.1_RC.563/host/htc2/htc_send.c:481-710 | In every state of every run the packets callers brought for an endpoint are those it accepted and those that wait with their callers for its lock. |
| HtcSendTheorems.NoLostWakeup | AR6kSDK.build_3.1_RC.563/host/htc2/htc_send.c:85-868 | In every state of every run, for every endpoint: a sendable head packet is unattended exactly when a failed send or a flush uncovered it and it has been unattended ever since. |
| HtcSendTheorems.NobodyStranded | AR6kSDK.build_3.1_RC.563/host/htc2/htc_send.c:606-838 | Without failed sends and selective flushes no sendable packet is ever unattended. |
| HtcSendTheorems.QuietMeansDrained | AR6kSDK.build_3.1_RC.563/host/htc2/htc_send.c:606-838 | Once threads are quiet and credits home, a queue is empty unless its head costs more than the endpoint was given. |
| HtcSendTheorems.QuietMeansDrainedByLength | AR6kSDK.build_3.1_RC.563/host/htc2/htc_send.c:176-224 | The same in bytes: only a message larger than the granted credits can stay behind. |
| HtcSendTheorems.FailedSendStrandsAPacket | AR6kSDK.build_3.1_RC.563/host/htc2/htc_send.c:85-98 | A concrete run in which a failed send leaves a sendable packet unattended, with credits charged by length, for every endpoint but 0. |
| HtcSendTheorems.FlushStrandsAPacket | AR6kSDK.build_3.1_RC.563/host/htc2/htc_send.c:842-868 | A concrete run in which a flush does so, with credits charged by length, for every endpoint but 0. |
| HtcSendBundle.Prepared | AR6kSDK.build_3.1_RC.563/host/htc2/htc_internal.h:198-211 | Undoing the preparation of a packet restores it. |
| HtcSendBundle.FitOf | AR6kSDK.build_3.1_RC.563/host/htc2/htc_send.c:369-400 | Padding is at most 255 bytes and the entry is the padded transfer plus the padding. |
| HtcSendBundle.FitsIff | AR6kSDK.build_3.1_RC.563/host/htc2/htc_send.c:369-400 | A message can be bundled exactly when its padded transfer is whole credits, or padding is allowed and, as computed, at most 255 bytes; and how much that is. |
| HtcSendBundle.FillsItsCreditsIff | AR6kSDK.build_3.1_RC.563/host/htc2/htc_send.c:375-396 | A bundled message fills the credits it is charged for exactly when no padding was needed, it is below one credit, or it overhangs by half a credit. |
| HtcSendBundle.WrongPad | AR6kSDK.build_3.1_RC.563/host/htc2/htc_send.c:384-384 | A concrete length for which the padding misses the credit boundary. |
| HtcSendBundle.PadIsAnnounced | AR6kSDK.build_3.1_RC.563/host/htc2/htc_send.c:419-424 | The header of a bundled message announces all the padding after it. |
| HtcSendBundle.FillIsPrefix | AR6kSDK.build_3.1_RC.563/host/htc2/htc_send.c:359-431 | A scatter list is the longest front of the queue that fits it. |
| HtcSendBundle.BundlesPartition | AR6kSDK.build_3.1_RC.563/host/htc2/htc_send.c:333-469 | Bundles in the order formed, followed by what is left, are the queue. |
| HtcSendBundle.BundlesOk | AR6kSDK.build_3.1_RC.563/host/htc2/htc_send.c:335-447 | Every bundle has between two and the maximum number of packets and fits the device limit. |
| HtcSendBundle.BundlesUntilStuck | AR6kSDK.build_3.1_RC.563/host/htc2/htc_send.c:333-469 | Bundling stops only for want of packets, for want of scatter lists, or because the first two packets cannot share a request. |
| HtcSendBundle.FullNeverBlocks | AR6kSDK.build_3.1_RC.563/host/htc2/htc_send.c:359-404 | A list that is used up does not end bundling. |
| HtcSendBundle.AsksOnce | AR6kSDK.build_3.1_RC.563/host/htc2/htc_send.c:313-357 | A round asks for at most one list, and has one if it forms a bundle. |
| HtcSendBundle.SinglesWithoutBundling | AR6kSDK.build_3.1_RC.563/host/htc2/htc_send.c:627-654 | With bundling off, or fewer than two packets, every packet goes out by itself. |
| HtcSendBundle.BundlesWhenItCan | AR6kSDK.build_3.1_RC.563/host/htc2/htc_send.c:313-447 | With bundling on, two packets that can share a request do, if a list is granted. |
| HtcSendBundle.DrainKeepsOrder | AR6kSDK.build_3.1_RC.563/host/htc2/htc_send.c:627-654 | Bundled or not, the device gets every packet exactly once and in order. |
| HtcSendBundle.DrainFits | AR6kSDK.build_3.1_RC.563/host/htc2/htc_send.c:627-654 | Every request is within the limits, and only bundled packets are marked as such. |
| HtcSendBundle.Drainer.MeasureMessage | AR6kSDK.build_3.1_RC.563/host/htc2/htc_send.c:369-400 | The branches that decide on padding. |
| HtcSendBundle.Drainer.FillRequest | AR6kSDK.build_3.1_RC.563/host/htc2/htc_send.c:359-431 | The loop fills the list as specified and reports whether a message stopped it. |
| HtcSendBundle.Drainer.PutBack | AR6kSDK.build_3.1_RC.563/host/htc2/htc_send.c:450-463 | Putting packets back restores the front of the queue, pointers included. |
| HtcSendBundle.Drainer.SendOneBundle | AR6kSDK.build_3.1_RC.563/host/htc2/htc_send.c:335-467 | One round submits a bundle or undoes it. |
| HtcSendBundle.Drainer.IssueSendBundle | AR6kSDK.build_3.1_RC.563/host/htc2/htc_send.c:313-476 | The outer loop and its two counters. |
| HtcSendBundle.Drainer.DrainLocal | AR6kSDK.build_3.1_RC.563/host/htc2/htc_send.c:627-654 | The local queue is emptied into the device as specified. |
| HtcRecvTrailer.AcceptedIff | AR6kSDK.build_3.1_RC.563/host/htc2/htc_recv.c:111-206 | For arbitrary bytes: a trailer is refused exactly when it is no string of whole records, or, look-aheads being wanted, a bundle report announces more than eight messages. |
| HtcRecvTrailer.AcceptedLeaves | AR6kSDK.build_3.1_RC.563/host/htc2/htc_recv.c:118-213 | For arbitrary bytes that are whole records: the credit reports left are those of the credit records, in order, and the look-aheads those of the last record that is a look-ahead with complementary guard bytes or a bundle report of at least four bytes, or the caller's own if there is none. |
| HtcRecvTrailer.RefusedLeaves | AR6kSDK.build_3.1_RC.563/host/htc2/htc_recv.c:118-213 | A refused trailer leaves the same for the records before the one that is refused. |
| HtcRecvTrailer.Kinds | AR6kSDK.build_3.1_RC.563/host/htc2/htc_recv.c:111-206 | Every trailer is of one of these two kinds. |
| HtcRecvTrailer.ParseOne | AR6kSDK.build_3.1_RC.563/host/htc2/htc_recv.c:118-200 | What a single well-formed record does. |
| HtcRecvTrailer.RoundTrip | AR6kSDK.build_3.1_RC.563/host/htc2/htc_recv.c:111-213 | Parsing printed records applies the credit reports in order and leaves the look-aheads of the last record that carries any. |
| HtcRecvTrailer.EntriesRoundTrip | AR6kSDK.build_3.1_RC.563/host/htc2/htc_recv.c:135-141 | The entries of a credit report are read back as written. |
| HtcRecvTrailer.WordsRoundTrip | AR6kSDK.build_3.1_RC.563/host/htc2/htc_recv.c:187-196 | The words of a bundle report are read back as written. |
| HtcRecvTrailer.CopyWords | AR6kSDK.build_3.1_RC.563/host/htc2/htc_recv.c:187-196 | The copy loop fills the front of the caller's array. |
| HtcRecvTrailer.ApplyRecord | AR6kSDK.build_3.1_RC.563/host/htc2/htc_recv.c:127-200 | What one record does to the look-aheads of the caller, and its credit report. |
| HtcRecvTrailer.ProcessTrailer | AR6kSDK.build_3.1_RC.563/host/htc2/htc_recv.c:87-222 | The loop over arbitrary bytes terminates and computes the specified outcome, whose meaning the two lemmas above state. |
| HtcRecvPacket.ProcessRecvHeader | AR6kSDK.build_3.1_RC.563/host/htc2/htc_recv.c:226-381 | Without the trailer flag a message is accepted exactly when its first four bytes are the expected ones (or, when they were not known, its length fits and its endpoint agrees), and leaves its payload and no look-aheads; otherwise its trailer decides as well. The length left is the payload without the trailer, inside the buffer. |
| HtcRecvPacket.PlainMessage | AR6kSDK.build_3.1_RC.563/host/htc2/htc_recv.c:244-361 | What becomes of a message without a trailer, in bytes. |
| HtcRecvPacket.TrailedMessage | AR6kSDK.build_3.1_RC.563/host/htc2/htc_recv.c:309-345 | A message with a trailer is accepted exactly when its header is good and the bytes of the trailer, two at least and within the payload, are whole records without an overlong bundle report. |
| HtcRecvPacket.TrailerLeaves | AR6kSDK.build_3.1_RC.563/host/htc2/htc_recv.c:309-345 | It leaves the credit reports and look-aheads of those records, the latter unless they are to be ignored. |
| HtcRecvPacket.GoodMessageAccepted | AR6kSDK.build_3.1_RC.563/host/htc2/htc_recv.c:244-361 | A message made of an announced header, data and printed records is accepted with all its effects, leaving exactly the data. |
| HtcRecvPacket.PlainMessageAccepted | AR6kSDK.build_3.1_RC.563/host/htc2/htc_recv.c:244-361 | A message made of an announced header and data, without records, is accepted and leaves the data. |
| HtcRecvPacket.FitsBuffer | AR6kSDK.build_3.1_RC.563/host/htc2/htc_recv.c:259-306 | A header that fits keeps the payload inside the buffer. |
| HtcRecvFetch.CollectIsPrefix | AR6kSDK.build_3.1_RC.563/host/htc2/htc_recv.c:1030-1069 | A scatter list takes a front of the queue. |
| HtcRecvFetch.CollectIsLongest | AR6kSDK.build_3.1_RC.563/host/htc2/htc_recv.c:1030-1069 | It is the longest front that fits the slots and the space. |
| HtcRecvFetch.CollectMarks | AR6kSDK.build_3.1_RC.563/host/htc2/htc_recv.c:1046-1050 | Which packets of a scatter list have their look-ahead ignored. |
| HtcRecvFetch.FetchedOnceInOrder | AR6kSDK.build_3.1_RC.563/host/htc2/htc_recv.c:1200-1256 | For any limits, paddings and refusals every packet is fetched exactly once and in order. |
| HtcRecvFetch.OnlyTheLastMayAnnounce | AR6kSDK.build_3.1_RC.563/host/htc2/htc_recv.c:994-1256 | All but the last packet have their look-ahead ignored; the last one keeps it exactly when fetched by itself or when the whole batch travelled in one request. |
| HtcRecvFetch.WholeIff | AR6kSDK.build_3.1_RC.563/host/htc2/htc_recv.c:994-1256 | One request fetches a batch exactly when it is a single message, or a scatter list is granted that has slots and bytes enough for all of it. |
| HtcRecvFetch.LastAnnouncesIff | AR6kSDK.build_3.1_RC.563/host/htc2/htc_recv.c:994-1256 | The last packet of a batch keeps its look-ahead exactly when limits, paddings and refusals leave it to be fetched by itself, or the batch travels whole; no other packet does. |
| HtcRecvFetch.LastAloneIff | AR6kSDK.build_3.1_RC.563/host/htc2/htc_recv.c:1202-1254 | With bundling, the last packet is fetched by itself exactly when the numbers of packets that fit each list in turn, and one for each that takes none, leave it behind. |
| HtcRecvFetch.AllIgnored | AR6kSDK.build_3.1_RC.563/host/htc2/htc_recv.c:1046-1050 | Any four messages where two fit a request are all fetched with their look-aheads ignored. |
| HtcRecvFetch.FetchesFit | AR6kSDK.build_3.1_RC.563/host/htc2/htc_recv.c:994-1079 | Every scatter request is within the device limits. |
| HtcRecvFetch.EmptyRequestIff | AR6kSDK.build_3.1_RC.563/host/htc2/htc_recv.c:1030-1079 | When a request without entries is submitted. |
| HtcRecvFetch.Receiver.FillRequest | AR6kSDK.build_3.1_RC.563/host/htc2/htc_recv.c:1030-1069 | The loop, with its put-back of a packet that does not fit. |
| HtcRecvFetch.Receiver.IssueRecvPacketBundle | AR6kSDK.build_3.1_RC.563/host/htc2/htc_recv.c:980-1096 | What is submitted and how many packets that fetched. |
| HtcRecvFetch.Receiver.FetchOne | AR6kSDK.build_3.1_RC.563/host/htc2/htc_recv.c:1202-1254 | One pass of the fetch loop. |
| HtcRecvFetch.Receiver.FetchBatch | AR6kSDK.build_3.1_RC.563/host/htc2/htc_recv.c:1200-1256 | The loop terminates with an empty queue and the specified requests. |
| HtcRecvPending.FetchSplits | AR6kSDK.build_3.1_RC.563/host/htc2/htc_recv.c:1200-1256 | Whatever fails, packets fetched, the packet in hand and packets left to be fetched are the batch, in order. |
| HtcRecvPending.FetchFollowsPlan | AR6kSDK.build_3.1_RC.563/host/htc2/htc_recv.c:1200-1256 | Whatever fails, the loop submits the requests planned for a device that never fails, up to and including the first that does fail. |
| HtcRecvPending.FetchesAll | AR6kSDK.build_3.1_RC.563/host/htc2/htc_recv.c:1200-1256 | While the device does not fail, the loop fetches what is planned. |
| HtcRecvPending.ShortFetchIgnores | AR6kSDK.build_3.1_RC.563/host/htc2/htc_recv.c:1238-1247 | When fetching stops short, all packets fetched have their look-ahead ignored. |
| HtcRecvPending.BatchAccounts | AR6kSDK.build_3.1_RC.563/host/htc2/htc_recv.c:1200-1357 | Packets are indicated in order from the front of the batch; each packet of the batch is indicated, recycled or lost, exactly once. |
| HtcRecvPending.CleanBatch | AR6kSDK.build_3.1_RC.563/host/htc2/htc_recv.c:1200-1312 | Without failures the whole batch is indicated, in order. |
| HtcRecvPending.LossesAreBounded | AR6kSDK.build_3.1_RC.563/host/htc2/htc_recv.c:1244-1357 | A batch that fails loses at most two packets; one that succeeds recycles none and loses all it did not indicate. |
| HtcRecvPending.NothingLostIff | AR6kSDK.build_3.1_RC.563/host/htc2/htc_recv.c:1244-1357 | No packet of a batch is lost exactly when all headers processed are accepted and either no submission fails, or the first that does is a scatter request before which nothing was fetched or with which the batch is complete. |
| HtcRecvPending.SinglesLoseNothingIff | AR6kSDK.build_3.1_RC.563/host/htc2/htc_recv.c:1223-1357 | Without bundling, a batch loses nothing exactly when all its reads succeed and all its headers are accepted. |
| HtcRecvPending.FailureMaskedIff | AR6kSDK.build_3.1_RC.563/host/htc2/htc_recv.c:1278-1316 | When a submission fails, success is reported exactly when the requests up to it, itself included if it is a scatter request, queued something and all those headers are accepted. |
| HtcRecvPending.MaskedFailureIsSilent | AR6kSDK.build_3.1_RC.563/host/htc2/htc_recv.c:1314-1321 | After a masked failure with losses no look-ahead keeps the handler going. |
| HtcRecvPending.MaskedLoss | AR6kSDK.build_3.1_RC.563/host/htc2/htc_recv.c:1244-1294 | A concrete batch of three of which two vanish behind a success. |
| HtcRecvPending.FailedRequestIsProcessed | AR6kSDK.build_3.1_RC.563/host/htc2/htc_recv.c:1059-1083 | Wherever in a batch a scatter request fails, its packets are processed as if they had been read. |
| HtcRecvPending.Handler.IssueRecv | AR6kSDK.build_3.1_RC.563/host/htc2/htc_recv.c:1223-1252 | A single read; on a failure the packet in hand is in no queue. |
| HtcRecvPending.Handler.IssueRecvPacketBundle | AR6kSDK.build_3.1_RC.563/host/htc2/htc_recv.c:994-1083 | A scatter request queues its packets for completion before it is submitted. |
| HtcRecvPending.Handler.FetchPass | AR6kSDK.build_3.1_RC.563/host/htc2/htc_recv.c:1202-1254 | One pass of the fetch loop, failures included. |
| HtcRecvPending.Handler.FetchPackets | AR6kSDK.build_3.1_RC.563/host/htc2/htc_recv.c:1200-1256 | The fetch loop, failures included. |
| HtcRecvPending.Handler.ProcessNext | AR6kSDK.build_3.1_RC.563/host/htc2/htc_recv.c:1282-1311 | A refused packet has left the queue. |
| HtcRecvPending.Handler.UnloadCompletions | AR6kSDK.build_3.1_RC.563/host/htc2/htc_recv.c:1278-1312 | Headers are processed up to the first refusal; the status of the fetch is replaced. |
| HtcRecvPending.Handler.Cleanup | AR6kSDK.build_3.1_RC.563/host/htc2/htc_recv.c:1346-1357 | Both queues are recycled. |
| HtcRecvPending.Handler.Conclude | AR6kSDK.build_3.1_RC.563/host/htc2/htc_recv.c:1278-1357 | Processing and, on a failure, cleaning up. |
| HtcRecvPending.Handler.HandleBatch | AR6kSDK.build_3.1_RC.563/host/htc2/htc_recv.c:1156-1357 | A whole batch: what was indicated, recycled and lost, and the status. |
| HtcRecvIndicate.StepOk | AR6kSDK.build_3.1_RC.563/host/htc2/htc_recv.c:428-476 | Every step of every drain call keeps the invariant. |
| HtcRecvIndicate.RunOk | AR6kSDK.build_3.1_RC.563/host/htc2/htc_recv.c:428-575 | The invariant holds in every state of every run. |
| HtcRecvIndicate.IndicatedOnceInOrder | AR6kSDK.build_3.1_RC.563/host/htc2/htc_recv.c:428-476 | Indicated, held and queued packets are at any moment all those enqueued, in order; a flush only takes packets out. |
| HtcRecvIndicate.SingleDrainer | AR6kSDK.build_3.1_RC.563/host/htc2/htc_recv.c:438-448 | One call drains at a time, and the counter says whether one does. |
| HtcRecvIndicate.NoneForgotten | AR6kSDK.build_3.1_RC.563/host/htc2/htc_recv.c:554-575 | A queued packet is bound to be seen by a call that drains or is yet to be made. |
| HtcRecvIndicate.AllReturnedMeansAllIndicated | AR6kSDK.build_3.1_RC.563/host/htc2/htc_recv.c:554-575 | Once all calls have returned, everything enqueued was indicated, in order. |
| HtcRecvIndicate.CallsGoOn | AR6kSDK.build_3.1_RC.563/host/htc2/htc_recv.c:428-476 | A call that has not returned can always take its next step. |
| HtcRecvIndicate.RecvEndpoint.QueuePackets | AR6kSDK.build_3.1_RC.563/host/htc2/htc_recv.c:958-962 | Completion handlers append to the queue. |
| HtcRecvIndicate.RecvEndpoint.BeginDrain | AR6kSDK.build_3.1_RC.563/host/htc2/htc_recv.c:436-462 | The section at the start of a drain is the step of the model. |
| HtcRecvIndicate.RecvEndpoint.ResumeDrain | AR6kSDK.build_3.1_RC.563/host/htc2/htc_recv.c:449-476 | A later turn of the drain is the step of the model. |
| HtcRecvBuffers.RxEndpoint.GetBuffer | AR6kSDK.build_3.1_RC.563/host/htc2/htc_recv.c:753-806 | Which buffer is taken: the answer of the callback or threshold callback, or the head of the list, refilled first when empty. |
| HtcRecvBuffers.TakenIs | AR6kSDK.build_3.1_RC.563/host/htc2/htc_recv.c:753-806 | Whom a buffer comes from, and when a refill is asked for. |
| HtcRecvBuffers.RxEndpoint.PrepareOne | AR6kSDK.build_3.1_RC.563/host/htc2/htc_recv.c:753-849 | One message: the status, the packet queued, and the endpoint marked as waiting exactly when there was no buffer. |
| HtcRecvBuffers.RxEndpoint.PrepareMessages | AR6kSDK.build_3.1_RC.563/host/htc2/htc_recv.c:747-858 | A look-ahead and the messages announced to follow it, up to the first that cannot be prepared. |
| HtcRecvBuffers.RxEndpoint.PrepareAll | AR6kSDK.build_3.1_RC.563/host/htc2/htc_recv.c:699-860 | All look-aheads in order: status, packets, pool and waiting mark are exactly those specified. |
| HtcRecvBuffers.RxEndpoint.AllocAndPrepareRxPackets | AR6kSDK.build_3.1_RC.563/host/htc2/htc_recv.c:682-873 | The same, and on an error the queue is empty and exactly the specified buffers are back in the list or returned to the driver as canceled. |
| HtcRecvBuffers.RxEndpoint.RecycleAll | AR6kSDK.build_3.1_RC.563/host/htc2/htc_recv.c:864-870 | Exactly which buffers go back to the endpoint and which to the driver. |
| HtcRecvBuffers.RxEndpoint.Recycle | AR6kSDK.build_3.1_RC.563/host/htc2/htc_internal.h:151-162 | The recycle macro. |
| HtcRecvBuffers.RxEndpoint.AddReceivePktMultiple | AR6kSDK.build_3.1_RC.563/host/htc2/htc_recv.c:1390-1448 | Supplied buffers are kept or, when stopping, canceled; the receiver is unblocked exactly when it waited for this endpoint. |
| HtcRecvBuffers.RecyclingSorts | AR6kSDK.build_3.1_RC.563/host/htc2/htc_internal.h:151-162 | What goes back is reset and was the endpoint's own; what goes away is canceled and came from a callback unless HTC was stopping. |
| HtcRecvBuffers.WordsFill | AR6kSDK.build_3.1_RC.563/host/htc2/htc_recv.c:699-860 | What each status stands for: success, all look-aheads can be fetched and their slots are filled in order; no resource, a front of them, and there was no buffer for the next; canceled, HTC is being stopped; protocol error, the next look-ahead cannot be fetched or the buffer for the next slot is too short. Buffers are marked as not to be recycled exactly when the driver was asked for them. |
| HtcRecvBuffers.EveryMessageGetsABuffer | AR6kSDK.build_3.1_RC.563/host/htc2/htc_recv.c:732-858 | For headers that announce any numbers of messages to follow: a success that waits for nothing leaves a buffer for each header and each message that follows it, those of a header together and in order, the first expecting the header and the others to learn theirs. |
| HtcRecvBuffers.RefusedIff | AR6kSDK.build_3.1_RC.563/host/htc2/htc_recv.c:699-730 | A header is refused exactly when it names another endpoint or none, announces more than 4090 bytes, or the endpoint is bound to no service. |
| HtcRecvBuffers.FromFills | AR6kSDK.build_3.1_RC.563/host/htc2/htc_recv.c:747-858 | The same for one look-ahead and the messages that follow it. |
| HtcRecvBuffers.WordsAccount | AR6kSDK.build_3.1_RC.563/host/htc2/htc_recv.c:699-860 | Every buffer that was there or came in is in the list or queued, exactly once. |
| HtcRecvBuffers.FailureAccounts | AR6kSDK.build_3.1_RC.563/host/htc2/htc_recv.c:860-870 | After a failure every one of them is in the list or was returned, exactly once. |
| HtcRecvBuffers.FilledIsPrepared | AR6kSDK.build_3.1_RC.563/host/htc2/htc_recv.c:836-849 | A prepared buffer meets what processing its header relies on. |
| Stailq.Head.Empty | AR6kSDK.build_3.1_RC.563/include/queue.h:240-240 | Emptiness. |
| Stailq.Head.First | AR6kSDK.build_3.1_RC.563/include/queue.h:242-242 | The first element. |
| Stailq.Head.Last | AR6kSDK.build_3.1_RC.563/include/queue.h:280-284 | The last element, computed from the last link. |
| Stailq.Head.ForEach | AR6kSDK.build_3.1_RC.563/include/queue.h:244-247 | The elements are visited in order. |
| Stailq.Head.Init | AR6kSDK.build_3.1_RC.563/include/queue.h:255-258 | An empty list. The links and the last pointer stay exact. |
| Stailq.Head.InsertTail | AR6kSDK.build_3.1_RC.563/include/queue.h:272-276 | Appends. The links and the last pointer stay exact. |
| Stailq.Head.InsertHead | AR6kSDK.build_3.1_RC.563/include/queue.h:266-270 | Prepends. The links and the last pointer stay exact. |
| Stailq.Head.InsertAfter | AR6kSDK.build_3.1_RC.563/include/queue.h:260-264 | Inserts behind an element, at the end as well. The links and the last pointer stay exact. |
| Stailq.Head.RemoveHead | AR6kSDK.build_3.1_RC.563/include/queue.h:306-310 | Removes the first element. The links and the last pointer stay exact. |
| Stailq.Head.RemoveHeadUntil | AR6kSDK.build_3.1_RC.563/include/queue.h:312-315 | Removes everything up to an element. The links and the last pointer stay exact. |
| Stailq.Head.Remove | AR6kSDK.build_3.1_RC.563/include/queue.h:292-304 | Finds and removes an element. The links and the last pointer stay exact. |
| Stailq.Head.Concat | AR6kSDK.build_3.1_RC.563/include/queue.h:232-238 | Moves one list behind another and empties it. The links and the last pointer stay exact. |
| Stailq.ChainInserted | AR6kSDK.build_3.1_RC.563/include/queue.h:260-270 | Relinking around a new element gives an acyclic list of the right elements. |
| Stailq.ChainCut | AR6kSDK.build_3.1_RC.563/include/queue.h:292-315 | Relinking past removed elements does. |
| Tailq.DHead.Empty | AR6kSDK.build_3.1_RC.563/include/queue.h:421-421 | Emptiness. |
| Tailq.DHead.First | AR6kSDK.build_3.1_RC.563/include/queue.h:423-423 | The first element. |
| Tailq.DHead.Last | AR6kSDK.build_3.1_RC.563/include/queue.h:495-496 | The last element, read through the last link as if it were a head. |
| Tailq.DHead.Prev | AR6kSDK.build_3.1_RC.563/include/queue.h:500-501 | The element before a given one, or none. |
| Tailq.DHead.ForEachReverse | AR6kSDK.build_3.1_RC.563/include/queue.h:435-438 | The elements are visited from the last to the first. |
| Tailq.DHead.Init | AR6kSDK.build_3.1_RC.563/include/queue.h:445-449 | An empty list. The links both ways stay exact. |
| Tailq.DHead.InsertTail | AR6kSDK.build_3.1_RC.563/include/queue.h:486-493 | Appends. The links both ways stay exact. |
| Tailq.DHead.InsertHead | AR6kSDK.build_3.1_RC.563/include/queue.h:474-484 | Prepends. The links both ways stay exact. |
| Tailq.DHead.InsertAfter | AR6kSDK.build_3.1_RC.563/include/queue.h:451-463 | Inserts behind an element. The links both ways stay exact. |
| Tailq.DHead.InsertBefore | AR6kSDK.build_3.1_RC.563/include/queue.h:465-472 | Inserts in front of an element. The links both ways stay exact. |
| Tailq.DHead.Remove | AR6kSDK.build_3.1_RC.563/include/queue.h:503-515 | Removes an element without a search. The links both ways stay exact. |
| Tailq.DHead.Concat | AR6kSDK.build_3.1_RC.563/include/queue.h:410-419 | Moves one list behind another and empties it. The links both ways stay exact. |
| Tailq.ChainedInserted | AR6kSDK.build_3.1_RC.563/include/queue.h:451-484 | Relinking both ways around a new element gives a consistent list. |
| Tailq.ChainedCut | AR6kSDK.build_3.1_RC.563/include/queue.h:503-515 | Relinking both ways past removed elements does. |
| Ring.RingPush | AR6kSDK.build_3.1_RC.563/host/dfs/dfs_bindetects.c:105-116 | Writing behind the last place appends to what the ring stands for. |
| Ring.RingPushFull | AR6kSDK.build_3.1_RC.563/host/dfs/dfs_bindetects.c:107-116 | Writing to a full ring gives up the oldest element. |
| Ring.RingSuffix | AR6kSDK.build_3.1_RC.563/host/dfs/dfs_bindetects.c:122-125 | Moving the start forward keeps the end of the contents. |
| Ring.MaskSteps | AR6kSDK.build_3.1_RC.563/host/dfs/dfs_bindetects.c:105-119 | Masked 32-bit steps are steps along the ring, for the three ring sizes in use. |
| DfsRing.DelayLine.Push | AR6kSDK.build_3.1_RC.563/host/dfs/dfs_bindetects.c:104-116 | For any 32-bit interval a pulse is appended and the oldest given up when the line is full. |
| DfsRing.DelayLine.Cut | AR6kSDK.build_3.1_RC.563/host/dfs/dfs_bindetects.c:113-126 | The loop stops at the first pulse that takes the 32-bit sum beyond the filter length, whether the sum wraps or not. |
| DfsRing.DelayLine.Trim | AR6kSDK.build_3.1_RC.563/host/dfs/dfs_bindetects.c:113-126 | What is left is the end of the line the loop stops at; a cut makes the first index right again. |
| DfsRing.DelayLine.AddPulse | AR6kSDK.build_3.1_RC.563/host/dfs/dfs_bindetects.c:97-130 | Append, then trim; the ring stays consistent, or becomes so when pulses are given up. |
| DfsRing.TrimIsUnique | AR6kSDK.build_3.1_RC.563/host/dfs/dfs_bindetects.c:118-126 | The specification of trimming leaves one result. |
| DfsRing.TotalsAdd | AR6kSDK.build_3.1_RC.563/host/dfs/dfs_bindetects.c:115-118 | What pulses span is the sum of their intervals. |
| DfsRing.StopsRightIff | AR6kSDK.build_3.1_RC.563/host/dfs/dfs_bindetects.c:118-126 | The loop keeps the longest end within the filter length exactly when nothing is to be given up or the first sum beyond that length does not wrap to within it. |
| DfsRing.ShortNeverWraps | AR6kSDK.build_3.1_RC.563/host/dfs/dfs_bindetects.c:118-126 | Below half of the 32-bit range it never does. |
| DfsRing.WrapKeepsAnOldPulse | AR6kSDK.build_3.1_RC.563/host/dfs/dfs_bindetects.c:118-126 | Three concrete intervals for which a pulse over an hour old is kept. |
| DfsRing.PushedAt | AR6kSDK.build_3.1_RC.563/host/dfs/dfs_bindetects.c:104-116 | Writing behind the newest pulse appends, wherever the first index points. |
| DfsRing.HoldsTheLatest | AR6kSDK.build_3.1_RC.563/host/dfs/dfs_bindetects.c:97-130 | Over any run with pulses added and lines dropped: up to any change, the line has always held the longest end of everything added since the last drop that spans no more than the filter, up to 64 pulses, exactly when no sum that ends a search wraps to within the filter length. |
| DfsRing.LatestStepIff | AR6kSDK.build_3.1_RC.563/host/dfs/dfs_bindetects.c:104-126 | The same for one pulse. |
| DfsRing.ShortRunsHold | AR6kSDK.build_3.1_RC.563/host/dfs/dfs_bindetects.c:97-130 | With intervals and filter length below half of the 32-bit range a line always holds that. |
| DfsRing.HistoryIsUnique | AR6kSDK.build_3.1_RC.563/host/dfs/dfs_bindetects.c:97-167 | What a line holds, and how many pulses, depends on the pulses added and the drops alone: a first index that a drop left wrong has no part in it. The filters that drop their pulses test nothing but that number. |
| DfsRing.DelayLine.DropAll | AR6kSDK.build_3.1_RC.563/host/dfs/dfs_bindetects.c:161-167 | Dropping the pulses of a fixed pattern empties the line and leaves its first index right exactly when it was empty or full. |
| DfsBin5.Bin5Radar.AddPulse | AR6kSDK.build_3.1_RC.563/host/dfs/dfs_fcc_bin5.c:21-61 | For any 64-bit time stamps: a pulse is taken exactly when its gap is plausible; the pulses in front that are too old for it are gone, and the ring stays consistent. |
| DfsBin5.Bin5Radar.Push | AR6kSDK.build_3.1_RC.563/host/dfs/dfs_fcc_bin5.c:41-50 | A pulse is appended and the oldest given up when the ring is full. |
| DfsBin5.Bin5Radar.Expire | AR6kSDK.build_3.1_RC.563/host/dfs/dfs_fcc_bin5.c:51-60 | Exactly the pulses in front that are outside the window of the newest are dropped. |
| DfsBin5.AppendedOk | AR6kSDK.build_3.1_RC.563/host/dfs/dfs_fcc_bin5.c:31-50 | Accepted pulses keep neighbours ordered with plausible gaps. |
| DfsBin5.AcceptsIff | AR6kSDK.build_3.1_RC.563/host/dfs/dfs_fcc_bin5.c:31-40 | A pulse is accepted exactly when it is the first, or comes 990 to 2010 microseconds or at least 300 milliseconds after the newest, modulo 2^64. |
| DfsBin5.RecentOk | AR6kSDK.build_3.1_RC.563/host/dfs/dfs_fcc_bin5.c:51-60 | Dropping old pulses keeps the gaps plausible and leaves the oldest within the window of the newest. |
| DfsBin5.OrderedAreRecent | AR6kSDK.build_3.1_RC.563/host/dfs/dfs_fcc_bin5.c:51-60 | While time stamps do not decrease, all pulses are within the window of the newest. |
| DfsBin5.FallingBackForgets | AR6kSDK.build_3.1_RC.563/host/dfs/dfs_fcc_bin5.c:31-60 | A time stamp behind all others is taken for a gap between bursts, and all other pulses are dropped. |
| DfsBin5.CollectedIncreases | AR6kSDK.build_3.1_RC.563/host/dfs/dfs_fcc_bin5.c:86-143 | The collected offsets are strictly increasing. |
| DfsBin5.CollectedArePaired | AR6kSDK.build_3.1_RC.563/host/dfs/dfs_fcc_bin5.c:86-143 | Exactly the pulses with a matching neighbour are collected. |
| DfsBin5.MatchIff | AR6kSDK.build_3.1_RC.563/host/dfs/dfs_fcc_bin5.c:90-116 | When two neighbours match, in numbers, a roll-over included. |
| DfsBin5.BurstsAndEvents | AR6kSDK.build_3.1_RC.563/host/dfs/dfs_fcc_bin5.c:117-151 | There are more collected pulses than bursts and no more than pulses, so that averages never divide by zero. |
| DfsBin5.EndsAreBursts | AR6kSDK.build_3.1_RC.563/host/dfs/dfs_fcc_bin5.c:117-143 | The bursts counted are the elements that match the one before. |
| DfsBin5.VaryIff | AR6kSDK.build_3.1_RC.563/host/dfs/dfs_fcc_bin5.c:146-157 | The widths vary enough exactly when their distances from the whole average add up to at least five for each. |
| DfsBin5.FoundIff | AR6kSDK.build_3.1_RC.563/host/dfs/dfs_fcc_bin5.c:144-160 | A radar is found exactly when enough neighbours match, newest and oldest pulse are at least three seconds apart, and the widths vary enough. |
| DfsBin5.WidthsAdd | AR6kSDK.build_3.1_RC.563/host/dfs/dfs_fcc_bin5.c:151-157 | Both totals are sums over the recorded pulses. |
| DfsBin5.Bin5Radar.RecordPair | AR6kSDK.build_3.1_RC.563/host/dfs/dfs_fcc_bin5.c:117-131 | A pair is recorded without repeating a pulse, inside the index array. |
| DfsBin5.Bin5Radar.CollectBursts | AR6kSDK.build_3.1_RC.563/host/dfs/dfs_fcc_bin5.c:85-143 | The loop counts the bursts and records their pulses. |
| DfsBin5.Bin5Radar.SumWidths | AR6kSDK.build_3.1_RC.563/host/dfs/dfs_fcc_bin5.c:151-153 | The total width of the recorded pulses. |
| DfsBin5.Bin5Radar.SumDiffs | AR6kSDK.build_3.1_RC.563/host/dfs/dfs_fcc_bin5.c:155-157 | Their total distance from the average. |
| DfsBin5.Bin5Radar.WidthsVary | AR6kSDK.build_3.1_RC.563/host/dfs/dfs_fcc_bin5.c:146-165 | Whether the recorded widths are further from their average, on average, than the margin. |
| DfsBin5.Bin5Radar.Check | AR6kSDK.build_3.1_RC.563/host/dfs/dfs_fcc_bin5.c:69-165 | A radar is found exactly when enough bursts over at least three seconds vary enough in width. |
| DfsTimestamp.Extender.Extend | AR6kSDK.build_3.1_RC.563/host/dfs/dfs_process_radarevent.c:114-171 | For full stamps that move either way, the branches compute the specified prefix in 64-bit words. |
| DfsTimestamp.StreamFits | AR6kSDK.build_3.1_RC.563/host/dfs/dfs_process_radarevent.c:114-171 | Over any stream the words agree with unbounded numbers as long as the last prefix fits them. |
| DfsTimestamp.FullFallsBack | AR6kSDK.build_3.1_RC.563/host/dfs/dfs_process_radarevent.c:160-166 | A full stamp that falls by up to one period under a low part that moved up takes the prefix back by two periods, modulo 2^64. |
| DfsTimestamp.OrIsPlus | AR6kSDK.build_3.1_RC.563/host/dfs/dfs_process_radarevent.c:168-168 | Or-ing the low part into the prefix adds it. |
| DfsTimestamp.AdvancesIff | AR6kSDK.build_3.1_RC.563/host/dfs/dfs_process_radarevent.c:147-168 | Whatever the full stamps and the width of the register: the extended stamp moves forward unless the low part is above what the register kept, not above the last one, and the full stamps are less than two periods apart. |
| DfsTimestamp.GapSeen | AR6kSDK.build_3.1_RC.563/host/dfs/dfs_process_radarevent.c:147-168 | For exact full stamps, any width of the register and any gap: how far the extended stamp moves. |
| DfsTimestamp.GapIsRightIff | AR6kSDK.build_3.1_RC.563/host/dfs/dfs_process_radarevent.c:147-168 | A gap is exact exactly when it is at most one period and no wrap in it goes unnoticed, or the period is the whole word, the gap a multiple of it, and the register kept the low part. |
| DfsTimestamp.WideGapSeen | AR6kSDK.build_3.1_RC.563/host/dfs/dfs_process_radarevent.c:147-168 | With a register as wide as the stamp, gaps up to one period are exact and one period is lost beyond, unless the period is the whole word and the gap a multiple of it. |
| DfsTimestamp.PrefixIsMultiple | AR6kSDK.build_3.1_RC.563/host/dfs/dfs_process_radarevent.c:147-166 | Over any stream and for any register the prefix stays a multiple of the period. |
| DfsTimestamp.StampAdvancesIff | AR6kSDK.build_3.1_RC.563/host/dfs/dfs_process_radarevent.c:114-171 | In any stream a stamp is above the one before exactly when it does not fall back as above. |
| DfsTimestamp.StampsIncreaseIff | AR6kSDK.build_3.1_RC.563/host/dfs/dfs_process_radarevent.c:114-171 | The stamps of a stream strictly increase exactly when none of them falls back. |
| DfsTimestamp.WideRegisterNeverFallsBack | AR6kSDK.build_3.1_RC.563/host/dfs/dfs_process_radarevent.c:114-171 | With a register as wide as the stamp none ever does. |
| DfsTimestamp.StreamSeen | AR6kSDK.build_3.1_RC.563/host/dfs/dfs_process_radarevent.c:114-171 | Over any stream of exact full stamps and for any register, each stamp is the first plus the gaps seen. |
| DfsTimestamp.StreamIsRightIff | AR6kSDK.build_3.1_RC.563/host/dfs/dfs_process_radarevent.c:114-171 | All stamps keep their true distance from the first exactly when every gap comes out right. |
| DfsTimestamp.ShippedRegisterLosesAWrap | AR6kSDK.build_3.1_RC.563/host/include/dfs_host.h:58-59 | Two concrete pulses 1.4 seconds apart for which, with the shipped types, the second is placed 71 minutes before the first. |
| DfsPeaks.UpdateKeepsTopThree | AR6kSDK.build_3.1_RC.563/host/dfs/dfs_ar.c:20-35 | Counting a signature more often and running the macro keeps the three most frequent signatures. |
| DfsPeaks.OtherKeepsTopThree | AR6kSDK.build_3.1_RC.563/host/dfs/dfs_ar.c:136-139 | Counting another width does not disturb them. |
| DfsPeaks.WidthIs | AR6kSDK.build_3.1_RC.563/host/dfs/dfs_ar.c:75-98 | For one more pulse after any run: a pulse of the maximum width counts for itself; a shorter one is added to one such pulse, or five, that came right before it, counts for a maximum one after two to four, and for itself otherwise, unless the pulse before it was added to one. |
| DfsPeaks.MaximaThenShort | AR6kSDK.build_3.1_RC.563/host/dfs/dfs_ar.c:75-98 | From a clean start: one or five maximum pulses are added to a shorter one that follows, two to four hide it. |
| DfsPeaks.ShortCountsAsLong | AR6kSDK.build_3.1_RC.563/host/dfs/dfs_ar.c:92-95 | After a maximum pulse and a short one, any pulse counts for a maximum one. |
| DfsPeaks.SumIsChecked | AR6kSDK.build_3.1_RC.563/host/dfs/dfs_ar.c:100-112 | A sum in certain ranges counts only when as many ticks passed since the last event that counted as the short pulse is wide. |
| DfsPeaks.RollOverIsMissed | AR6kSDK.build_3.1_RC.563/host/dfs/dfs_ar.c:103-111 | Across a roll-over of the 16-bit stamp no such sum ever counts. |
| DfsPeaks.BinIs | AR6kSDK.build_3.1_RC.563/host/dfs/dfs_ar.c:113-145 | Which widths are counted, in which bin, and how often. |
| DfsPeaks.SignatureIff | AR6kSDK.build_3.1_RC.563/host/dfs/dfs_ar.c:149-160 | Which widths are signatures. |
| DfsPeaks.TopThreeIsBest | AR6kSDK.build_3.1_RC.563/host/dfs/dfs_ar.c:20-35 | No three different signatures were counted more often together than the listed ones. |
| DfsPeaks.IncrementalIsRight | AR6kSDK.build_3.1_RC.563/host/dfs/dfs_ar.c:113-168 | After any run of events without a detection, from a clean start, the histogram has counted every width as often as it came, the list kept up event by event is its top three, and the sum kept up is that of all signatures. |
| DfsPeaks.RunIsRight | AR6kSDK.build_3.1_RC.563/host/dfs/dfs_ar.c:56-223 | Over any run of events and tests, detections among them: histogram, list and sum are those of the events since the last detection. |
| DfsPeaks.TestedIff | AR6kSDK.build_3.1_RC.563/host/dfs/dfs_ar.c:149-217 | The peaks are tested after an event that counts for a signature, and after no other. |
| DfsPeaks.PeaksInSum | AR6kSDK.build_3.1_RC.563/host/dfs/dfs_ar.c:161-171 | The three peaks are part of the sum of signatures, and all of it while fewer than three different ones came. |
| DfsPeaks.ScannedTotals | AR6kSDK.build_3.1_RC.563/host/dfs/dfs_ar.c:170-198 | What the loop over the peaks adds up: the number of peaks is that of the entries in use less one, the entry behind the list among them, and the sum includes what that entry leads to. |
| DfsPeaks.TrafficIff | AR6kSDK.build_3.1_RC.563/host/dfs/dfs_ar.c:200-211 | Whatever lies behind the list, and short of wrapping: traffic is seen exactly when more than twenty signatures came and the peaks, with the entry behind their list and what earlier events of the call left, exceed five in 32 of them for each entry in use but one. |
| DfsPeaks.EntryBehind | AR6kSDK.build_3.1_RC.563/host/include/dfs_host.h:313-314 | With an entry behind the list, as when radar types are configured, the peaks are counted right: traffic is seen exactly when at most two different signatures came or the peaks, and that entry, exceed fifteen in 32 of all. |
| DfsPeaks.NothingBehind | AR6kSDK.build_3.1_RC.563/host/include/dfs_host.h:313-314 | With none, one peak less is counted, and three peaks are compared with five in 16. |
| DfsPeaks.UnusedBinIsEmpty | AR6kSDK.build_3.1_RC.563/host/dfs/dfs_ar.c:113-139 | Bins 1 and 4 to 10 are never counted, so that so many radar types add nothing to the sum. |
| DfsPeaks.TrafficOverRuns | AR6kSDK.build_3.1_RC.563/host/dfs/dfs_ar.c:168-211 | With such a number of types, after any run, an event that starts a call shows traffic exactly when more than twenty signatures came since the last detection and at most two different ones did or the peaks exceed fifteen in 32 of them. |
| DfsPeaks.SumRunsOn | AR6kSDK.build_3.1_RC.563/host/dfs/dfs_ar.c:170-205 | With such a number of types, from a clean start: 37 events that show no traffic when each is a call of its own, and show traffic when the last two share a call. |
| DfsPeaks.ArState.UpdateTopThreePeaks | AR6kSDK.build_3.1_RC.563/host/dfs/dfs_ar.c:20-35 | The macro, in place. |
| DfsPeaks.ArState.Aggregate | AR6kSDK.build_3.1_RC.563/host/dfs/dfs_ar.c:75-98 | Following pulses of the maximum width, as WidthIs says over runs. |
| DfsPeaks.ArState.Count | AR6kSDK.build_3.1_RC.563/host/dfs/dfs_ar.c:113-145 | The bin an event counts for and by how much, the list and the sum staying right. |
| DfsPeaks.ArState.CountWidth | AR6kSDK.build_3.1_RC.563/host/dfs/dfs_ar.c:137-168 | A bin is counted, a strong signature once more, and the list and the sum brought up to date. |
| DfsPeaks.ArState.Judge | AR6kSDK.build_3.1_RC.563/host/dfs/dfs_ar.c:113-219 | Counting an event, testing the peaks and, on traffic, starting over. |
| DfsPeaks.ArState.AddPeaks | AR6kSDK.build_3.1_RC.563/host/dfs/dfs_ar.c:170-198 | The loop over the four entries, with the boost of long packets. |
| DfsPeaks.ArState.TestPeaks | AR6kSDK.build_3.1_RC.563/host/dfs/dfs_ar.c:168-217 | The comparison in 32-bit arithmetic; without traffic the sum of signatures is put back, with it everything starts over. |
| DfsPeaks.ArState.Clear | AR6kSDK.build_3.1_RC.563/host/dfs/dfs_ar.c:206-210 | After traffic was detected everything starts over. |
| DfsPeaks.ArState.ProcessArEvent | AR6kSDK.build_3.1_RC.563/host/dfs/dfs_ar.c:62-220 | One event: width, histogram, list, the test for traffic, and the state carried over. |
| DfsTable.RoundIsNearest | AR6kSDK.build_3.1_RC.563/host/dfs/dfs_process_radarevent.c:23-35 | Hundredths are rounded to the nearest whole, halves up. |
| DfsTable.MinPriIsNearest | AR6kSDK.build_3.1_RC.563/host/dfs/dfs_init.c:313-316 | The shortest interval is, to the nearest microsecond, that of the highest frequency less offset and variation, and never below zero. |
| DfsTable.MaxPriIsNearest | AR6kSDK.build_3.1_RC.563/host/dfs/dfs_init.c:317-320 | The longest is that of the lowest frequency less offset, with the variation on top. |
| DfsTable.PriOrdered | AR6kSDK.build_3.1_RC.563/host/dfs/dfs_init.c:313-320 | The shortest interval of a filter is at most its longest. |
| DfsTable.LeastPri | AR6kSDK.build_3.1_RC.563/host/dfs/dfs_init.c:322-323 | The interval of a type is at most that of each of its filters, and one of them or the initial value. |
| DfsTable.OfKey | AR6kSDK.build_3.1_RC.563/host/dfs/dfs_init.c:249-258 | The pulses of a type are those of the table with its key. |
| DfsTable.KeysAreDistinct | AR6kSDK.build_3.1_RC.563/host/dfs/dfs_init.c:249-276 | Types have different keys and every pulse has a type. |
| DfsTable.JoinType | AR6kSDK.build_3.1_RC.563/host/dfs/dfs_init.c:301-323 | A pulse with a known key joins the type that has it. |
| DfsTable.OpenType | AR6kSDK.build_3.1_RC.563/host/dfs/dfs_init.c:260-323 | A pulse with a new key opens a type. |
| DfsTable.OverrunsGrow | AR6kSDK.build_3.1_RC.563/host/dfs/dfs_init.c:301-301 | The filter of a pulse is written behind the places of its type exactly when the type is full. |
| DfsTable.PlaceIs | AR6kSDK.build_3.1_RC.563/host/dfs/dfs_init.c:249-301 | A type has as many filters as there were pulses with its key. |
| DfsTable.MatchingIsScan | AR6kSDK.build_3.1_RC.563/host/dfs/dfs_init.c:282-299 | A row lists exactly the types whose durations include its own, increasing and without duplicates. |
| DfsTable.Radars.ClearTable | AR6kSDK.build_3.1_RC.563/host/dfs/dfs_init.c:241-245 | All rows are empty. |
| DfsTable.Radars.FindFree | AR6kSDK.build_3.1_RC.563/host/dfs/dfs_init.c:284-290 | The first free place of a row. |
| DfsTable.Radars.EnterType | AR6kSDK.build_3.1_RC.563/host/dfs/dfs_init.c:282-299 | A new type is entered in the rows of all its durations, or some duration has too many. |
| DfsTable.Radars.FindType | AR6kSDK.build_3.1_RC.563/host/dfs/dfs_init.c:250-258 | The first type with a given key. |
| DfsTable.Radars.AddPulse | AR6kSDK.build_3.1_RC.563/host/dfs/dfs_init.c:248-326 | One pulse keeps the grouping and the index; its filter goes to the place given by the pulses of its type before it. |
| DfsTable.Radars.InitRadarFilters | AR6kSDK.build_3.1_RC.563/host/dfs/dfs_init.c:241-326 | Initialisation groups the pulses and builds the index, and fails exactly when there are too many types or too many for a duration; when it succeeds, some filter was written behind the ten places of its type exactly when a type has more than ten pulses. |
| DfsTable.Radars.Scan | AR6kSDK.build_3.1_RC.563/host/dfs/dfs_process_radarevent.c:230-233 | The scan up to the first -1 meets exactly the matching types. |
| DfsEvents.Shift | AR6kSDK.build_3.1_RC.563/host/dfs/dfs_process_phyerr.c:45-58 | Moving an event between two queues keeps every event in exactly one of the three. |
| DfsEvents.Dfs.Attach | AR6kSDK.build_3.1_RC.563/host/dfs/dfs.c:59-61 | All events start out free. |
| DfsEvents.Dfs.QueuePhyerr | AR6kSDK.build_3.1_RC.563/host/dfs/dfs_process_phyerr.c:31-98 | A report takes a free event to the end of its queue, or is dropped when none is free. |
| DfsEvents.Dfs.Take | AR6kSDK.build_3.1_RC.563/host/dfs/dfs_process_radarevent.c:85-102 | The first report of a queue comes out and its event is free again. |
| DfsEvents.Dfs.ProcessRadar | AR6kSDK.build_3.1_RC.563/host/dfs/dfs_process_radarevent.c:81-105 | Radar reports are processed in arrival order until a radar is found, a hundred are done, or none are left. |
| DfsEvents.Dfs.ProcessAr | AR6kSDK.build_3.1_RC.563/host/dfs/dfs_ar.c:56-73 | All AR reports are processed in arrival order. |
| DfsEvents.Dfs.ResetArq | AR6kSDK.build_3.1_RC.563/host/dfs/dfs_ar.c:241-259 | All AR events are free again. |
| DfsEvents.Dfs.ResetRadarq | AR6kSDK.build_3.1_RC.563/host/dfs/dfs_init.c:167-185 | All radar events are free again. |
| DfsEvents.ReportsFilled | AR6kSDK.build_3.1_RC.563/host/dfs/dfs_process_phyerr.c:59-89 | Filling an event and queueing it appends its report. |

## Left out

- Packets are values with an identity: sharing of packet objects between queues and changes through other references are not captured; `pBuffer` is an offset.
- The device layer, interrupts, mutexes, timers and allocation are environment; a lock-held section is one step.
- Packets handed to the device and never completed stay with the device in the model; `HTCIssueSend` has its status ignored by the code.
- CreditMath.PaddedLength: padding is to a multiple of a block size; that the device computes it with a power-of-two mask is not modelled.
- HtcSendTheorems.CreditsAreConserved: a target that reports credits it does not hold is excluded, since the code trusts reports.
- HtcServices.Target.SetupEndpoint: exchange of the connection messages, the reserved control service and the callbacks copied are not modelled.
- Credit policies other than the default one, with the credits a seeking endpoint tells them it needs; endpoint activity flags and statistics.
- `HTCWaitforControlMessage`, `HTCStart` and the rest of bring-up and shut-down.
- HtcRecvTrailer.ProcessTrailer: a guarded look-ahead record may be read up to six bytes past the trailer; that memory is taken to exist. Credit reports are collected in order rather than applied.
- HtcRecvBuffers.RxEndpoint.AllocAndPrepareRxPackets: buffers belong to the endpoint they are queued on, and other threads interfere only where the lock is released for a refill.
- HtcRecvFetch.Receiver.FetchBatch: submissions succeed; HtcRecvPending covers those that do not, in synchronous operation.
- HtcRecvPending.Handler.HandleBatch: one batch; that look-aheads lead to the next one, the yield of the interrupt routine and the refill watermark are not modelled, nor is a failed submission in asynchronous operation.
- The indication flag that announces more packets.
- `STAILQ_FOREACH_SAFE`, `TAILQ_FOREACH` and their variants, which walk as the modelled ones do.
- DfsRing.HoldsTheLatest: the intervals that some checks rewrite in the line are not modelled.
- `dfs_bin_check`, `dfs_bin_pri_check`, `dfs_staggered_check` and the fixed pattern check: statistical heuristics; only the ring they read is modelled.
- DfsBin5.Bin5Radar.Check: one radar; with several, counters run on from one radar to the next.
- DfsTimestamp.StreamIsRightIff: the results on streams are about unbounded prefixes, which StreamFits ties to words of 64 bits.
- DfsTimestamp.Extender.Extend: the duration subtracted afterwards and the duplicate marker are left out.
- The pulse line of `dfs_process_radarevent_host`, a ring like the others.
- DfsPeaks.ArState.TestPeaks: what lies behind the peak list is an input; counts and their sums are natural numbers, only the products compared are cut to 32 bits.
- DfsPeaks.TrafficIff: the two products compared do not wrap; TestPeaks covers those that do.
- DfsTable.Radars.InitRadarFilters: what a filter written behind its places destroys is not modelled; durations are below 256, rates are positive, and thresholds are left out.
- DfsEvents.Dfs.ProcessRadar: what a report leads to is an input, one verdict for each.
