/** Handing the drainer's local queue to the device: packets go out in scatter requests as
    long as bundles can be formed, and one by one otherwise. */
module HtcSendBundle {
  import opened CreditMath
  import opened SeqFacts
  import opened HtcSendSpec

  const MIN_HTC_MSGS_TO_BUNDLE: nat := 2
  const MAX_PAD: nat := 255

  /** Space of a message in a bundle and the dummy bytes after it, unless the message has to
      be sent by itself. */
  datatype Fit = Unfit | Fits(length: nat, pad: nat)

  /** `fit` measures a message by its length; FitsByLength pins it down. `maxBytes` is the
      most one scatter request may carry. */
  datatype Rules = Rules(fit: nat -> Fit, maxPerBundle: nat, maxBytes: nat)

  /** The credit size, the block size of the device, and whether the endpoint allows dummy
      bytes after a message. */
  datatype Measure = Measure(creditSize: nat, block: nat, padding: bool) {
    predicate Valid() { 0 < creditSize && 0 < block }
  }

  ghost predicate FitsByLength(rules: Rules, m: Measure) {
    m.Valid() && forall n: nat {:trigger FitOf(m, n)} :: rules.fit(n) == FitOf(m, n)
  }

  /** A packet with its bookkeeping; `pBuffer` points at the payload. */
  datatype TxPacket = TxPacket(rec: Issued, pBuffer: int)

  /** A packet with the HTC header written in front of the payload. */
  datatype Framed = Framed(rec: Issued, pBuffer: int, payloadLen: nat, needCredits: bool, inBundle: bool, pad: nat,
      seqNo: nat)

  datatype Entry = Entry(packet: Framed, length: nat)

  datatype Sending = Bundle(entries: seq<Entry>) | Single(packet: Framed)

  function Prepared(p: TxPacket, inBundle: bool, pad: nat): (r: Framed)
    ensures Unprepared(r) == p && r.payloadLen < 0x10000
    ensures p.rec.pkt.length < 0x10000 ==> r.payloadLen == p.rec.pkt.length
  {
    Framed(p.rec, p.pBuffer - HTC_HDR_LENGTH, p.rec.pkt.length % 0x10000, p.rec.needCredits, inBundle, pad % 256,
      p.rec.seqNo)
  }

  function Unprepared(f: Framed): TxPacket
  {
    TxPacket(f.rec, f.pBuffer + HTC_HDR_LENGTH)
  }

  // --- how long an entry of a bundle is -------------------------------------------------

  function FitOf(m: Measure, length: nat): (r: Fit)
    requires m.Valid()
    ensures r.Fits? ==> r.pad <= MAX_PAD && r.length == PaddedLength(length + HTC_HDR_LENGTH, m.block) + r.pad
  {
    var transfer := PaddedLength(length + HTC_HDR_LENGTH, m.block);
    var remainder := transfer % m.creditSize;
    if remainder == 0 then Fits(transfer, 0)
    else if !m.padding then Unfit
    else
      var pad := if transfer < m.creditSize then m.creditSize - transfer else remainder;
      if 0 < pad <= MAX_PAD then Fits(transfer + pad, pad) else Unfit
  }

  /** A message can be bundled exactly when its padded transfer is a whole number of credits, or
      padding is allowed and no more than the header can announce: up to a whole credit for a
      transfer below one, and otherwise what the transfer is over. */
  lemma FitsIff(m: Measure, length: nat, whole: nat, over: nat)
    requires m.Valid() && over < m.creditSize
    requires PaddedLength(length + HTC_HDR_LENGTH, m.block) == whole * m.creditSize + over
    ensures var pad := if whole == 0 then m.creditSize - over else over;
      && (FitOf(m, length).Fits? <==> over == 0 || (m.padding && pad <= 255))
      && (FitOf(m, length).Fits? ==> FitOf(m, length).pad == if over == 0 then 0 else pad)
  {
    QuotientIs(whole * m.creditSize + over, m.creditSize, whole);
    assert (whole * m.creditSize + over) % m.creditSize == over by {
      var x := whole * m.creditSize + over;
      assert x == x / m.creditSize * m.creditSize + x % m.creditSize;
    }
    if whole > 0 { MulGrows(whole, m.creditSize); }
  }

  /** A transfer of whole credits is charged exactly those. */
  lemma WholeCredits(x: nat, c: nat)
    requires 0 < c && 0 < x && x % c == 0
    ensures CreditsRequired(x, c) * c == x
  {
    var n := CreditsRequired(x, c);
    assert x == x / c * c;
    if x <= c {
      assert x == c by { if x < c { QuotientIs(x, c, 0); } }
    }
  }

  lemma ChargeAbove(x: nat, c: nat)
    requires 0 < c <= x && x % c != 0
    ensures CreditsRequired(x, c) * c == x - x % c + c
  {
    var q := x / c;
    assert x == q * c + x % c;
    assert c < x;
    MulSucc(q, c);
  }

  lemma RemainderOfSum(x: nat, c: nat)
    requires 0 < c && x % c != 0
    ensures (x + x % c) % c == 0 <==> 2 * (x % c) == c
  {
    var q, m := x / c, x % c;
    assert x == q * c + m;
    MulSucc(q, c);
    MulSucc(q + 1, c);
    if 2 * m < c {
      QuotientIs(x + m, c, q);
    } else {
      QuotientIs(x + m, c, q + 1);
    }
    var d := (x + m) / c;
    assert x + m == d * c + (x + m) % c;
  }

  /** A bundled message fills the credits it is charged for exactly when no padding was
      needed, it is below one credit, or it overhangs by exactly half a credit. */
  lemma FillsItsCreditsIff(m: Measure, length: nat)
    requires m.Valid() && FitOf(m, length).Fits?
    ensures var transfer := PaddedLength(length + HTC_HDR_LENGTH, m.block);
      var remainder := transfer % m.creditSize;
      var bytes := FitOf(m, length).length;
      && (bytes % m.creditSize == 0 <==> (remainder == 0 || transfer < m.creditSize || 2 * remainder == m.creditSize))
      && (bytes % m.creditSize == 0 <==> bytes == CreditsRequired(transfer, m.creditSize) * m.creditSize)
  {
    FillsIff(PaddedLength(length + HTC_HDR_LENGTH, m.block), m.creditSize);
  }

  lemma FillsIff(x: nat, c: nat)
    requires 0 < c && 0 < x
    ensures x % c == 0 ==> CreditsRequired(x, c) * c == x
    ensures x < c ==> c % c == 0 && CreditsRequired(x, c) * c == c
    ensures c <= x && x % c != 0 ==> ((x + x % c) % c == 0 <==> 2 * (x % c) == c)
    ensures c <= x && x % c != 0 ==> ((x + x % c) % c == 0 <==> x + x % c == CreditsRequired(x, c) * c)
  {
    if x % c == 0 {
      WholeCredits(x, c);
    } else if c <= x {
      ChargeAbove(x, c);
      RemainderOfSum(x, c);
    } else {
      MultipleHasNoRemainder(1, c);
    }
  }

  /** The remainder is added where its complement was needed: with 128-byte credits and
      32-byte blocks a 160-byte transfer is charged two credits and goes out as 192 bytes. */
  lemma WrongPad()
    ensures FitOf(Measure(128, 32, true), 130) == Fits(192, 32)
    ensures CreditsRequired(PaddedLength(130 + HTC_HDR_LENGTH, 32), 128) == 2
  {
    QuotientIs(167, 32, 5);
  }

  // --- filling one scatter request --------------------------------------------------------

  function Fill(rules: Rules, q: seq<TxPacket>, slots: nat, space: nat): (r: seq<Entry>)
    ensures |r| <= slots && |r| <= |q|
  {
    if slots == 0 || q == [] then []
    else
      match rules.fit(q[0].rec.pkt.length)
      case Unfit => []
      case Fits(length, pad) =>
        if space < length then []
        else [Entry(Prepared(q[0], true, pad), length)] + Fill(rules, q[1..], slots - 1, space - length)
  }

  /** Filling ended at a message that cannot be bundled. */
  function Blocked(rules: Rules, q: seq<TxPacket>, slots: nat, space: nat): bool
  {
    var n := |Fill(rules, q, slots, space)|;
    n < slots && n < |q| && rules.fit(q[n].rec.pkt.length).Unfit?
  }

  function Taken(entries: seq<Entry>): (r: seq<TxPacket>)
    ensures |r| == |entries|
  {
    if entries == [] then [] else [Unprepared(entries[0].packet)] + Taken(entries[1..])
  }

  lemma {:induction false} TakenConcat(a: seq<Entry>, b: seq<Entry>)
    ensures Taken(a + b) == Taken(a) + Taken(b)
  {
    if a == [] {
      assert a + b == b;
    } else {
      assert (a + b)[1..] == a[1..] + b;
      TakenConcat(a[1..], b);
    }
  }

  function Bytes(entries: seq<Entry>): nat
  {
    if entries == [] then 0 else entries[0].length + Bytes(entries[1..])
  }

  predicate EntryOk(rules: Rules, e: Entry)
  {
    && e.packet.inBundle && e.packet.seqNo == e.packet.rec.seqNo
    && (match rules.fit(e.packet.rec.pkt.length)
        case Unfit => false
        case Fits(length, pad) => e.length == length && e.packet.pad == pad % 256)
  }

  /** The header of a bundled message announces all the dummy bytes after it. */
  lemma PadIsAnnounced(rules: Rules, m: Measure, e: Entry)
    requires FitsByLength(rules, m) && EntryOk(rules, e)
    ensures e.length == PaddedLength(e.packet.rec.pkt.length + HTC_HDR_LENGTH, m.block) + e.packet.pad
  {
    assert rules.fit(e.packet.rec.pkt.length) == FitOf(m, e.packet.rec.pkt.length);
  }

  /** A filled request is the longest prefix of the queue that can travel in it; its headers
      announce the padding the receiver has to skip. */
  lemma {:induction false} FillIsPrefix(rules: Rules, q: seq<TxPacket>, slots: nat, space: nat)
    ensures var r := Fill(rules, q, slots, space);
      && Taken(r) + q[|r|..] == q && Bytes(r) <= space
      && (forall i :: 0 <= i < |r| ==> EntryOk(rules, r[i]))
      && (|r| < slots && |r| < |q| ==>
            rules.fit(q[|r|].rec.pkt.length).Unfit? || space < Bytes(r) + rules.fit(q[|r|].rec.pkt.length).length)
  {
    if slots != 0 && q != [] {
      match rules.fit(q[0].rec.pkt.length)
      case Unfit =>
      case Fits(length, pad) =>
        if length <= space {
          FillIsPrefix(rules, q[1..], slots - 1, space - length);
          var first, more := Entry(Prepared(q[0], true, pad), length), Fill(rules, q[1..], slots - 1, space - length);
          assert ([first] + more)[1..] == more;
          assert q[1..][|more|..] == q[|more| + 1..];
          Regroup([q[0]], Taken(more), q[1..][|more|..]);
        }
    }
  }

  // --- forming bundles until the queue or the scatter requests run out -------------------------

  /** One round of the outer loop: the bundle it sends, if any, and whether to go on. */
  datatype Round = Round(entries: seq<Entry>, attempts: nat, again: bool)

  /** `alloc(k)` says whether the k-th request for a scatter list is granted. */
  function RoundOf(rules: Rules, q: seq<TxPacket>, alloc: nat -> bool, k: nat): (r: Round)
    ensures |r.entries| <= |q| && (r.again ==> r.entries != [])
  {
    var slots := Slots(rules, q);
    if slots < MIN_HTC_MSGS_TO_BUNDLE then Round([], k, false)
    else
      var entries := Fill(rules, q, slots, rules.maxBytes);
      if !alloc(k) || |entries| < MIN_HTC_MSGS_TO_BUNDLE then Round([], k + 1, false)
      else Round(entries, k + 1, !Blocked(rules, q, slots, rules.maxBytes))
  }

  datatype Bundled = Bundled(bundles: seq<Sending>, rest: seq<TxPacket>, attempts: nat)

  function Bundles(rules: Rules, q: seq<TxPacket>, alloc: nat -> bool, k: nat): (r: Bundled)
    ensures |r.rest| <= |q|
    decreases |q|
  {
    var round := RoundOf(rules, q, alloc, k);
    if round.entries == [] then Bundled([], q, round.attempts)
    else
      var rest := q[|round.entries|..];
      if !round.again then Bundled([Bundle(round.entries)], rest, round.attempts)
      else
        var more := Bundles(rules, rest, alloc, round.attempts);
        Bundled([Bundle(round.entries)] + more.bundles, more.rest, more.attempts)
  }

  function Slots(rules: Rules, q: seq<TxPacket>): (r: nat)
    ensures r <= |q|
  {
    if |q| < rules.maxPerBundle then |q| else rules.maxPerBundle
  }

  predicate BundleOk(rules: Rules, entries: seq<Entry>)
  {
    && 2 <= |entries| <= rules.maxPerBundle && Bytes(entries) <= rules.maxBytes
    && (forall i :: 0 <= i < |entries| ==> EntryOk(rules, entries[i]))
  }

  /** The packets handed to the device, in order. */
  function Carried(sendings: seq<Sending>): seq<TxPacket>
  {
    if sendings == [] then []
    else
      (match sendings[0] case Bundle(entries) => Taken(entries) case Single(packet) => [Unprepared(packet)])
      + Carried(sendings[1..])
  }

  lemma {:induction false} CarriedConcat(a: seq<Sending>, b: seq<Sending>)
    ensures Carried(a + b) == Carried(a) + Carried(b)
  {
    if a == [] {
      assert a + b == b;
    } else {
      assert (a + b)[1..] == a[1..] + b;
      CarriedConcat(a[1..], b);
    }
  }

  lemma RoundOk(rules: Rules, q: seq<TxPacket>, alloc: nat -> bool, k: nat)
    ensures var r := RoundOf(rules, q, alloc, k);
      && Taken(r.entries) + q[|r.entries|..] == q
      && (r.entries != [] ==> BundleOk(rules, r.entries))
  {
    FillIsPrefix(rules, q, Slots(rules, q), rules.maxBytes);
  }

  /** Bundles in the order formed, followed by what is left, are the queue. */
  lemma {:induction false} BundlesPartition(rules: Rules, q: seq<TxPacket>, alloc: nat -> bool, k: nat)
    ensures var r := Bundles(rules, q, alloc, k); Carried(r.bundles) + r.rest == q
    decreases |q|
  {
    var round := RoundOf(rules, q, alloc, k);
    RoundOk(rules, q, alloc, k);
    if round.entries != [] {
      var rest := q[|round.entries|..];
      if round.again {
        BundlesPartition(rules, rest, alloc, round.attempts);
        var more := Bundles(rules, rest, alloc, round.attempts);
        assert ([Bundle(round.entries)] + more.bundles)[1..] == more.bundles;
        Regroup(Taken(round.entries), Carried(more.bundles), more.rest);
      } else {
        assert Carried([Bundle(round.entries)]) == Taken(round.entries) + Carried([]);
      }
    }
  }

  lemma {:induction false} BundlesOk(rules: Rules, q: seq<TxPacket>, alloc: nat -> bool, k: nat)
    ensures forall b :: b in Bundles(rules, q, alloc, k).bundles ==> b.Bundle? && BundleOk(rules, b.entries)
    decreases |q|
  {
    var round := RoundOf(rules, q, alloc, k);
    RoundOk(rules, q, alloc, k);
    if round.again {
      BundlesOk(rules, q[|round.entries|..], alloc, round.attempts);
    }
  }

  /** The first two packets could travel in one request. */
  predicate Pairable(rules: Rules, q: seq<TxPacket>)
    requires 2 <= |q|
  {
    var a, b := rules.fit(q[0].rec.pkt.length), rules.fit(q[1].rec.pkt.length);
    a.Fits? && b.Fits? && a.length + b.length <= rules.maxBytes
  }

  lemma PairableIffBundle(rules: Rules, q: seq<TxPacket>)
    requires 2 <= Slots(rules, q)
    ensures Pairable(rules, q) <==> 2 <= |Fill(rules, q, Slots(rules, q), rules.maxBytes)|
  {
    var slots := Slots(rules, q);
    match rules.fit(q[0].rec.pkt.length)
    case Unfit =>
    case Fits(length, pad) =>
      if length <= rules.maxBytes {
        var more := Fill(rules, q[1..], slots - 1, rules.maxBytes - length);
        assert |Fill(rules, q, slots, rules.maxBytes)| == 1 + |more|;
        assert q[1..][0] == q[1];
        assert |more| >= 1 <==> Pairable(rules, q);
      }
  }

  /** Why bundling may stop with `q` left over after the attempts `i` to `k`. */
  predicate Stuck(rules: Rules, q: seq<TxPacket>, alloc: nat -> bool, i: nat, k: nat)
  {
    |q| < 2 || rules.maxPerBundle < 2 || (i < k && !alloc(k - 1)) || !Pairable(rules, q)
  }

  lemma RoundStuck(rules: Rules, q: seq<TxPacket>, alloc: nat -> bool, k: nat)
    ensures var r := RoundOf(rules, q, alloc, k);
      k <= r.attempts && (!r.again ==> Stuck(rules, q[|r.entries|..], alloc, k, r.attempts))
  {
    if 2 <= Slots(rules, q) {
      PairableIffBundle(rules, q);
      var n := |RoundOf(rules, q, alloc, k).entries|;
      if n < |q| { assert q[n..][0] == q[n]; }
    }
  }

  /** Bundling stops only when no two packets are left to pair, the last request for a
      scatter list was refused, or the first two packets cannot share a request. */
  lemma {:induction false} BundlesUntilStuck(rules: Rules, q: seq<TxPacket>, alloc: nat -> bool, k: nat)
    ensures var r := Bundles(rules, q, alloc, k); k <= r.attempts && Stuck(rules, r.rest, alloc, k, r.attempts)
    decreases |q|
  {
    var round := RoundOf(rules, q, alloc, k);
    RoundStuck(rules, q, alloc, k);
    if round.again {
      BundlesUntilStuck(rules, q[|round.entries|..], alloc, round.attempts);
    }
  }

  /** A round asks for at most one list, and for one if it forms a bundle. */
  lemma AsksOnce(rules: Rules, q: seq<TxPacket>, alloc: nat -> bool, k: nat)
    ensures var r := RoundOf(rules, q, alloc, k);
      k <= r.attempts <= k + 1 && (r.entries != [] ==> alloc(k) && r.attempts == k + 1)
  {
  }

  /** Filling that uses up the list does not end bundling. */
  lemma FullNeverBlocks(rules: Rules, q: seq<TxPacket>, slots: nat, space: nat)
    ensures |Fill(rules, q, slots, space)| == slots ==> !Blocked(rules, q, slots, space)
  {
  }

  // --- draining the whole local queue ---------------------------------------------------------

  function TryBundles(rules: Rules, enabled: bool, q: seq<TxPacket>, alloc: nat -> bool, k: nat): (r: Bundled)
    ensures |r.rest| <= |q|
  {
    if enabled && MIN_HTC_MSGS_TO_BUNDLE <= |q| then Bundles(rules, q, alloc, k) else Bundled([], q, k)
  }

  /** Everything handed to the device for one local queue, in order. */
  function DrainAll(rules: Rules, enabled: bool, q: seq<TxPacket>, alloc: nat -> bool, k: nat): seq<Sending>
    decreases |q|
  {
    var b := TryBundles(rules, enabled, q, alloc, k);
    if b.rest == [] then b.bundles
    else
      b.bundles + ([Single(Prepared(b.rest[0], false, 0))]
      + DrainAll(rules, enabled, b.rest[1..], alloc, b.attempts))
  }

  /** Whatever is bundled and whichever scatter requests are refused, the device gets every
      packet of the queue exactly once and in order. */
  lemma {:induction false} DrainKeepsOrder(rules: Rules, enabled: bool, q: seq<TxPacket>, alloc: nat -> bool, k: nat)
    ensures Carried(DrainAll(rules, enabled, q, alloc, k)) == q
    decreases |q|
  {
    var b := TryBundles(rules, enabled, q, alloc, k);
    BundlesPartition(rules, q, alloc, k);
    assert Carried(b.bundles) + b.rest == q;
    if b.rest != [] {
      var more := DrainAll(rules, enabled, b.rest[1..], alloc, b.attempts);
      DrainKeepsOrder(rules, enabled, b.rest[1..], alloc, b.attempts);
      CarriedSingle(b.rest, more);
      CarriedConcat(b.bundles, [Single(Prepared(b.rest[0], false, 0))] + more);
    }
  }

  lemma CarriedSingle(q: seq<TxPacket>, more: seq<Sending>)
    requires q != [] && Carried(more) == q[1..]
    ensures Carried([Single(Prepared(q[0], false, 0))] + more) == q
  {
    assert ([Single(Prepared(q[0], false, 0))] + more)[1..] == more;
    assert [q[0]] + q[1..] == q;
  }

  /** Every packet by itself. */
  function Singles(q: seq<TxPacket>): seq<Sending>
  {
    if q == [] then [] else [Single(Prepared(q[0], false, 0))] + Singles(q[1..])
  }

  /** With bundling off, or a single packet, no list is asked for. */
  lemma {:induction false} SinglesWithoutBundling(rules: Rules, enabled: bool, q: seq<TxPacket>, alloc: nat -> bool,
      k: nat)
    requires !enabled || |q| < 2
    ensures DrainAll(rules, enabled, q, alloc, k) == Singles(q)
    decreases |q|
  {
    if q != [] { SinglesWithoutBundling(rules, enabled, q[1..], alloc, k); }
  }

  /** With bundling on, two packets that can share a request do, if a list is granted. */
  lemma BundlesWhenItCan(rules: Rules, q: seq<TxPacket>, alloc: nat -> bool, k: nat)
    requires 2 <= |q| && 2 <= rules.maxPerBundle && alloc(k) && Pairable(rules, q)
    ensures var sent := DrainAll(rules, true, q, alloc, k);
      sent != [] && sent[0].Bundle? && 2 <= |sent[0].entries|
  {
    PairableIffBundle(rules, q);
  }

  predicate SendingOk(rules: Rules, s: Sending)
  {
    match s
    case Bundle(entries) => BundleOk(rules, entries)
    case Single(packet) => !packet.inBundle && packet.pad == 0 && packet.seqNo == packet.rec.seqNo
  }

  /** Every request fits the limits of the device, and only bundled packets are marked. */
  lemma {:induction false} DrainFits(rules: Rules, enabled: bool, q: seq<TxPacket>, alloc: nat -> bool, k: nat)
    ensures forall s :: s in DrainAll(rules, enabled, q, alloc, k) ==> SendingOk(rules, s)
    decreases |q|
  {
    var b := TryBundles(rules, enabled, q, alloc, k);
    BundlesOk(rules, q, alloc, k);
    if b.rest != [] {
      DrainFits(rules, enabled, b.rest[1..], alloc, b.attempts);
    }
  }

  // --- the loops on their way -----------------------------------------------------------

  /** Having formed `formed`, carrying on with `q` completes `all`. */
  ghost predicate BundlesLead(rules: Rules, formed: seq<Sending>, again: bool, q: seq<TxPacket>, alloc: nat -> bool,
      k: nat, all: Bundled)
  {
    if again then
      var more := Bundles(rules, q, alloc, k);
      all == Bundled(formed + more.bundles, more.rest, more.attempts)
    else all == Bundled(formed, q, k)
  }

  lemma BundlesLeadOn(rules: Rules, formed: seq<Sending>, q: seq<TxPacket>, alloc: nat -> bool, k: nat, all: Bundled)
    requires BundlesLead(rules, formed, true, q, alloc, k, all)
    ensures var r := RoundOf(rules, q, alloc, k);
      BundlesLead(rules, if r.entries == [] then formed else formed + [Bundle(r.entries)], r.again,
        q[|r.entries|..], alloc, r.attempts, all)
  {
    var r := RoundOf(rules, q, alloc, k);
    if r.again {
      Regroup(formed, [Bundle(r.entries)], Bundles(rules, q[|r.entries|..], alloc, r.attempts).bundles);
    }
  }

  ghost predicate DrainLeads(rules: Rules, enabled: bool, sent: seq<Sending>, q: seq<TxPacket>, alloc: nat -> bool,
      k: nat, all: seq<Sending>)
  {
    sent + DrainAll(rules, enabled, q, alloc, k) == all
  }

  lemma DrainLeadsOn(rules: Rules, enabled: bool, sent: seq<Sending>, q: seq<TxPacket>, alloc: nat -> bool, k: nat,
      all: seq<Sending>)
    requires DrainLeads(rules, enabled, sent, q, alloc, k, all)
    ensures var b := TryBundles(rules, enabled, q, alloc, k);
      var now := sent + b.bundles;
      if b.rest == [] then now == all
      else DrainLeads(rules, enabled, now + [Single(Prepared(b.rest[0], false, 0))], b.rest[1..], alloc,
        b.attempts, all)
  {
    var b := TryBundles(rules, enabled, q, alloc, k);
    if b.rest != [] {
      var single := [Single(Prepared(b.rest[0], false, 0))];
      var more := DrainAll(rules, enabled, b.rest[1..], alloc, b.attempts);
      Regroup(sent, b.bundles, single + more);
      Regroup(sent + b.bundles, single, more);
    }
  }

  // --- in place -----------------------------------------------------------------------------

  /** The local queue of the thread that drains, and the device it feeds. */
  class Drainer {
    const rules: Rules
    const m: Measure
    const alloc: nat -> bool
    var Queue: seq<TxPacket>
    var Attempts: nat
    var Submitted: seq<Sending>

    /** How a message travels in a bundle. */
    method MeasureMessage(length: nat) returns (fit: Fit)
      requires FitsByLength(rules, m)
      ensures fit == rules.fit(length)
    {
      assert FitOf(m, length) == rules.fit(length);
      var transferLength := PaddedLength(length + HTC_HDR_LENGTH, m.block);
      var creditPad := 0;
      var creditRemainder := transferLength % m.creditSize;
      if creditRemainder != 0 {
        if m.padding {
          if transferLength < m.creditSize {
            creditPad := m.creditSize - transferLength;
          } else {
            creditPad := creditRemainder;
          }
          if creditPad > 0 && creditPad <= MAX_PAD {
            transferLength := transferLength + creditPad;
          } else {
            return Unfit;
          }
        } else {
          return Unfit;
        }
      }
      fit := Fits(transferLength, creditPad);
    }

    /** Moves packets from the queue into a scatter list. */
    method FillRequest(pktsToScatter: nat) returns (scatterList: seq<Entry>, done: bool)
      requires FitsByLength(rules, m) && pktsToScatter <= |Queue|
      modifies this`Queue
      ensures scatterList == Fill(rules, old(Queue), pktsToScatter, rules.maxBytes)
      ensures Queue == old(Queue)[|scatterList|..]
      ensures done == Blocked(rules, old(Queue), pktsToScatter, rules.maxBytes)
    {
      scatterList, done := [], false;
      var scatterSpaceRemaining, i := rules.maxBytes, 0;
      while i < pktsToScatter
        invariant i == |scatterList| <= pktsToScatter <= |old(Queue)| && 0 <= scatterSpaceRemaining
        invariant Queue == old(Queue)[i..] && !done
        invariant scatterList + Fill(rules, Queue, pktsToScatter - i, scatterSpaceRemaining)
               == Fill(rules, old(Queue), pktsToScatter, rules.maxBytes)
      {
        var pPacket := Queue[0];
        var fit := MeasureMessage(pPacket.rec.pkt.length);
        if fit.Unfit? {
          done := true;
          break;
        }
        if scatterSpaceRemaining < fit.length {
          break;
        }
        scatterSpaceRemaining := scatterSpaceRemaining - fit.length;
        var entry := Entry(Prepared(pPacket, true, fit.pad), fit.length);
        Regroup(scatterList, [entry], Fill(rules, Queue[1..], pktsToScatter - i - 1, scatterSpaceRemaining));
        Queue := Queue[1..];
        scatterList := scatterList + [entry];
        i := i + 1;
      }
    }

    /** Undoes the preparation and puts the packets back, last one first. */
    method PutBack(scatterList: seq<Entry>)
      modifies this`Queue
      ensures Queue == Taken(scatterList) + old(Queue)
    {
      var i := |scatterList|;
      while i > 0
        invariant 0 <= i <= |scatterList| && Queue == Taken(scatterList[i..]) + old(Queue)
      {
        i := i - 1;
        assert scatterList[i..][1..] == scatterList[i + 1..];
        Queue := [Unprepared(scatterList[i].packet)] + Queue;
      }
      assert scatterList[0..] == scatterList;
    }

    /** One round: fills a scatter list and submits it, or undoes it when it would carry
        fewer than two packets. */
    method SendOneBundle() returns (entries: seq<Entry>, again: bool)
      requires FitsByLength(rules, m)
      modifies this
      ensures RoundOf(rules, old(Queue), alloc, old(Attempts)) == Round(entries, Attempts, again)
      ensures Queue == old(Queue)[|entries|..]
      ensures Submitted == if entries == [] then old(Submitted) else old(Submitted) + [Bundle(entries)]
    {
      var pktsToScatter := Slots(rules, Queue);
      if pktsToScatter < MIN_HTC_MSGS_TO_BUNDLE {
        return [], false;
      }
      var granted := alloc(Attempts);
      Attempts := Attempts + 1;
      if !granted {
        return [], false;
      }
      FillIsPrefix(rules, Queue, pktsToScatter, rules.maxBytes);
      var scatterList, done := FillRequest(pktsToScatter);
      if |scatterList| >= MIN_HTC_MSGS_TO_BUNDLE {
        Submitted := Submitted + [Bundle(scatterList)];
        return scatterList, !done;
      }
      PutBack(scatterList);
      return [], false;
    }

    /** Forms and submits bundles as long as possible. */
    method IssueSendBundle() returns (bundlesSent: nat, totalPktsInBundle: nat)
      requires FitsByLength(rules, m)
      modifies this
      ensures var r := Bundles(rules, old(Queue), alloc, old(Attempts));
        Queue == r.rest && Attempts == r.attempts && Submitted == old(Submitted) + r.bundles
          && bundlesSent == |r.bundles|
      ensures totalPktsInBundle == |old(Queue)| - |Queue|
    {
      bundlesSent, totalPktsInBundle := 0, 0;
      var again := true;
      ghost var all := Bundles(rules, Queue, alloc, Attempts);
      all := all.(bundles := Submitted + all.bundles);
      while again
        invariant |Queue| + totalPktsInBundle == |old(Queue)| && bundlesSent + |old(Submitted)| == |Submitted|
        invariant BundlesLead(rules, Submitted, again, Queue, alloc, Attempts, all)
        decreases again, |Queue|
      {
        BundlesLeadOn(rules, Submitted, Queue, alloc, Attempts, all);
        var entries;
        entries, again := SendOneBundle();
        if entries != [] {
          bundlesSent := bundlesSent + 1;
          totalPktsInBundle := totalPktsInBundle + |entries|;
        }
      }
    }

    method TryToBundle(enabled: bool)
      requires FitsByLength(rules, m)
      modifies this
      ensures var b := TryBundles(rules, enabled, old(Queue), alloc, old(Attempts));
        Queue == b.rest && Attempts == b.attempts && Submitted == old(Submitted) + b.bundles
    {
      if enabled && |Queue| >= MIN_HTC_MSGS_TO_BUNDLE {
        var bundlesSent, pktsInBundles := IssueSendBundle();
      }
    }

    /** The part of HTCTrySend that runs without the lock. */
    method DrainLocal(enabled: bool)
      requires FitsByLength(rules, m)
      modifies this
      ensures Queue == []
      ensures Submitted == old(Submitted) + DrainAll(rules, enabled, old(Queue), alloc, old(Attempts))
    {
      ghost var all := Submitted + DrainAll(rules, enabled, Queue, alloc, Attempts);
      while true
        invariant DrainLeads(rules, enabled, Submitted, Queue, alloc, Attempts, all)
        decreases |Queue|
      {
        DrainLeadsOn(rules, enabled, Submitted, Queue, alloc, Attempts, all);
        TryToBundle(enabled);
        if Queue == [] {
          break;
        }
        Submitted := Submitted + [Single(Prepared(Queue[0], false, 0))];
        Queue := Queue[1..];
      }
    }
  }
}
