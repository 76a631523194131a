/** A received message: checking its header against what was expected, applying its trailer,
    and cutting both off. */
module HtcRecvPacket {
  import opened CreditMath
  import opened SeqFacts
  import opened HtcSendSpec
  import opened HtcRecvTrailer

  datatype RxFlags = RxFlags(ignoreLookahead: bool, refreshHdr: bool, partOfBundle: bool, noRecycle: bool)

  /** A receive buffer with its bookkeeping. `offset` is how far pBuffer is from the start of
      the buffer. */
  datatype RxPacket = RxPacket(id: nat, endpoint: nat, bufferLength: nat, offset: nat, actualLength: nat,
                               expectedHdr: Word, flags: RxFlags, canceled: bool)

  /** The frame header: endpoint, flags, payload length (low byte first), control bytes. */
  function PayloadLen(hdr: seq<Byte>): (r: nat)
    requires 4 <= |hdr|
    ensures r < 0x10000
  {
    (hdr[2] as int) + 256 * (hdr[3] as int)
  }

  predicate HasTrailer(hdr: seq<Byte>)
    requires 4 <= |hdr|
  {
    hdr[1] / 2 % 2 == 1
  }

  /** A packet ready to be fetched into: unless its header is only known after the fetch, it
      expects the length its look-ahead announced, and that fits the buffer. */
  predicate Prepared(p: RxPacket) {
    && |p.expectedHdr| == 4
    && (!p.flags.refreshHdr ==> p.actualLength == PayloadLen(p.expectedHdr) + HTC_HDR_LENGTH <= p.bufferLength)
  }

  /** Memory from the header on; a guarded record at the very end may be read past it. */
  predicate Holds(mem: seq<Byte>, p: RxPacket) {
    HTC_HDR_LENGTH <= |mem| && p.bufferLength + LOOKAHEAD_BYTES <= |mem|
  }

  /** The header is the announced one, or one that fits where none was announced. */
  predicate HeaderFits(p: RxPacket, mem: seq<Byte>)
    requires 4 <= |mem|
  {
    if p.flags.refreshHdr then PayloadLen(mem) + HTC_HDR_LENGTH <= p.bufferLength && mem[0] == p.endpoint
    else mem[..4] == p.expectedHdr
  }

  function TrailerLen(mem: seq<Byte>): nat
    requires HTC_HDR_LENGTH <= |mem|
  {
    if HasTrailer(mem) then mem[4] else 0
  }

  predicate TrailerFits(mem: seq<Byte>)
    requires HTC_HDR_LENGTH <= |mem|
  {
    HasTrailer(mem) ==> 2 <= mem[4] <= PayloadLen(mem)
  }

  /** What parsing the trailer gives; it is only read behind a header that fits. */
  function TrailerOutcome(p: RxPacket, mem: seq<Byte>, wants: bool): Outcome
    requires Holds(mem, p) && Prepared(p)
  {
    if !HeaderFits(p, mem) || !TrailerFits(mem) then Outcome(false, [], [])
    else if !HasTrailer(mem) then Outcome(true, [], [])
    else
      FitsBuffer(p, mem);
      Parse(mem[HTC_HDR_LENGTH + PayloadLen(mem) - mem[4]..], mem[4], wants && !p.flags.ignoreLookahead, [])
  }

  lemma FitsBuffer(p: RxPacket, mem: seq<Byte>)
    requires Holds(mem, p) && Prepared(p) && HeaderFits(p, mem)
    ensures PayloadLen(mem) + HTC_HDR_LENGTH <= p.bufferLength
  {
    if !p.flags.refreshHdr { assert mem[..4][2] == mem[2] && mem[..4][3] == mem[3]; }
  }

  // --- which messages are accepted, in bytes ------------------------------------------------------

  /** The first four bytes are the expected ones, or, where none were, the length fits the buffer
      and the endpoint agrees. */
  predicate HeaderIsGood(p: RxPacket, mem: seq<Byte>)
    requires 4 <= |mem|
  {
    if p.flags.refreshHdr then mem[2] as int + 256 * mem[3] as int + 6 <= p.bufferLength && mem[0] as int == p.endpoint
    else mem[0..4] == p.expectedHdr
  }

  /** A message without a trailer. */
  lemma PlainMessage(p: RxPacket, mem: seq<Byte>, wants: bool)
    requires Holds(mem, p) && Prepared(p) && (mem[1] / 2) % 2 == 0
    ensures TrailerOutcome(p, mem, wants) == Outcome(HeaderIsGood(p, mem), [], [])
    ensures TrailerLen(mem) == 0
  {
  }

  /** The bytes of the trailer: the end of the payload, as many as the first control byte says. */
  function TrailerAt(mem: seq<Byte>): (at: nat)
    requires HTC_HDR_LENGTH <= |mem| && mem[4] as int <= mem[2] as int + 256 * mem[3] as int
  {
    6 + mem[2] as int + 256 * mem[3] as int - mem[4] as int
  }

  ghost predicate TrailerIsGood(mem: seq<Byte>, wanted: bool, frames: seq<Frame>)
    requires HTC_HDR_LENGTH <= |mem|
  {
    && 2 <= mem[4] as int <= mem[2] as int + 256 * mem[3] as int && TrailerAt(mem) + mem[4] as int <= |mem|
    && Framing(frames, mem[TrailerAt(mem)..TrailerAt(mem) + mem[4] as int])
    && (wanted ==> forall f :: f in frames ==> !Overlong(f))
  }

  lemma TrailerInside(p: RxPacket, mem: seq<Byte>)
    requires Holds(mem, p) && Prepared(p) && HeaderIsGood(p, mem) && mem[4] as int <= PayloadLen(mem)
    ensures TrailerAt(mem) + mem[4] as int + LOOKAHEAD_BYTES <= |mem|
  {
    FitsBuffer(p, mem);
  }

  /** A message with a trailer is accepted exactly when its header is good and its trailer is a
      string of whole records, without an overlong bundle report if look-aheads are wanted. */
  lemma TrailedMessage(p: RxPacket, mem: seq<Byte>, wants: bool, wanted: bool)
    requires Holds(mem, p) && Prepared(p) && (mem[1] / 2) % 2 == 1
    requires wanted == (wants && !p.flags.ignoreLookahead)
    ensures TrailerOutcome(p, mem, wants).ok <==>
      HeaderIsGood(p, mem) && exists frames :: TrailerIsGood(mem, wanted, frames)
    ensures TrailerLen(mem) == mem[4] as int
  {
    if HeaderIsGood(p, mem) && 2 <= mem[4] as int <= PayloadLen(mem) {
      var at, n := TrailerAt(mem), mem[4] as int;
      TrailerInside(p, mem);
      GoodTrailers(mem, at, n, wanted);
    }
  }

  lemma GoodTrailers(mem: seq<Byte>, at: nat, n: nat, wanted: bool)
    requires HTC_HDR_LENGTH <= |mem| && at + n + LOOKAHEAD_BYTES <= |mem| && n == mem[4] as int
    requires 2 <= n <= mem[2] as int + 256 * mem[3] as int && at == TrailerAt(mem)
    ensures Parse(mem[at..], n, wanted, []).ok <==> exists frames :: TrailerIsGood(mem, wanted, frames)
  {
    AcceptedIff(mem[at..], n, wanted, []);
    assert mem[at..][..n] == mem[at..at + n];
    if Parse(mem[at..], n, wanted, []).ok {
      var frames :| Framing(frames, mem[at..at + n]) && (wanted ==> forall f :: f in frames ==> !Overlong(f));
      assert TrailerIsGood(mem, wanted, frames);
    }
  }

  /** What it leaves: the credit reports of its credit records, in order, and the look-aheads of
      the last record that announces something. */
  lemma TrailerLeaves(p: RxPacket, mem: seq<Byte>, wants: bool, frames: seq<Frame>)
    requires Holds(mem, p) && Prepared(p) && (mem[1] / 2) % 2 == 1 && HeaderIsGood(p, mem)
    requires TrailerIsGood(mem, wants && !p.flags.ignoreLookahead, frames)
    ensures var r, n := TrailerOutcome(p, mem, wants), TrailerAt(mem) + mem[4] as int;
      && r.reports == CreditFrames(frames) && n + LOOKAHEAD_BYTES <= |mem|
      && (if wants && !p.flags.ignoreLookahead then AreLeft(frames, mem[n..], [], r.looks) else r.looks == [])
  {
    var at, n := TrailerAt(mem), mem[4] as int;
    TrailerInside(p, mem);
    AcceptedLeaves(mem[at..], n, wants && !p.flags.ignoreLookahead, [], frames);
    assert mem[at..][..n] == mem[at..at + n] && mem[at..][n..] == mem[at + n..];
  }

  // --- in place -----------------------------------------------------------------------------------

  /** Accepts a message exactly when its header fits and its trailer parses; the packet is
      then left with the application's bytes, and the caller with the look-aheads of the
      trailer unless they are to be ignored. */
  method ProcessRecvHeader(pPacket: RxPacket, mem: seq<Byte>, pNextLookAheads: array?<Word>)
    returns (ok: bool, packet: RxPacket, reports: seq<seq<Report>>, numLookAheads: nat)
    requires Holds(mem, pPacket) && Prepared(pPacket)
    requires pNextLookAheads != null ==> pNextLookAheads.Length == HOST_MAX_MSG_PER_BUNDLE
    modifies pNextLookAheads
    ensures pNextLookAheads != null ==> numLookAheads <= HOST_MAX_MSG_PER_BUNDLE
    ensures var r := TrailerOutcome(pPacket, mem, pNextLookAheads != null);
      && ok == r.ok && reports == r.reports
      && (ok && !pPacket.flags.ignoreLookahead ==> Looks(pNextLookAheads, numLookAheads) == r.looks)
      && (pPacket.flags.ignoreLookahead ==> numLookAheads == 0)
    ensures ok ==>
      && packet.actualLength == PayloadLen(mem) - TrailerLen(mem)
      && packet.actualLength + HTC_HDR_LENGTH + TrailerLen(mem) <= packet.bufferLength
      && packet.offset == pPacket.offset + HTC_HDR_LENGTH && packet.expectedHdr == mem[..4]
    ensures (mem[1] / 2) % 2 == 0 ==>
      && ok == HeaderIsGood(pPacket, mem) && reports == [] && numLookAheads == 0
      && (ok ==> packet.actualLength == mem[2] as int + 256 * mem[3] as int)
    ensures packet.id == pPacket.id && packet.endpoint == pPacket.endpoint && packet.flags == pPacket.flags
      && packet.bufferLength == pPacket.bufferLength
  {
    packet, reports, numLookAheads := pPacket, [], 0;
    var payloadLen, lookAhead := PayloadLen(mem), mem[..4];
    if packet.flags.refreshHdr {
      packet := packet.(expectedHdr := lookAhead, actualLength := payloadLen + HTC_HDR_LENGTH);
      if packet.actualLength > packet.bufferLength {
        return false, packet.(actualLength := packet.bufferLength), reports, numLookAheads;
      }
      if packet.endpoint != mem[0] {
        return false, packet, reports, numLookAheads;
      }
    }
    if lookAhead != packet.expectedHdr {
      return false, packet, reports, numLookAheads;
    }
    FitsBuffer(pPacket, mem);
    if HasTrailer(mem) {
      var temp := mem[4];
      if temp < 2 || temp > payloadLen {
        return false, packet, reports, numLookAheads;
      }
      var trailer := mem[HTC_HDR_LENGTH + payloadLen - temp..];
      if packet.flags.ignoreLookahead {
        var ignored;
        ok, reports, ignored := ProcessTrailer(trailer, temp, null, 0);
      } else {
        ok, reports, numLookAheads := ProcessTrailer(trailer, temp, pNextLookAheads, 0);
      }
      if !ok {
        return false, packet, reports, numLookAheads;
      }
      packet := packet.(actualLength := packet.actualLength - temp);
    }
    ok := true;
    packet := packet.(offset := packet.offset + HTC_HDR_LENGTH, actualLength := packet.actualLength - HTC_HDR_LENGTH);
  }

  // --- messages a well-behaved target sends ---------------------------------------------------

  function Header(endpoint: Byte, flags: Byte, payloadLen: nat, trailerLen: Byte, control: Byte): (r: seq<Byte>)
    requires payloadLen < 0x10000
    ensures |r| == HTC_HDR_LENGTH
  {
    [endpoint, flags, payloadLen % 256, payloadLen / 256, trailerLen, control]
  }

  /** The parts of a message in memory. */
  lemma MessageParts(hdr: seq<Byte>, data: seq<Byte>, trailer: seq<Byte>, behind: seq<Byte>)
    requires |hdr| == HTC_HDR_LENGTH
    ensures var mem := hdr + data + trailer + behind;
      && (forall i :: 0 <= i < HTC_HDR_LENGTH ==> mem[i] == hdr[i]) && mem[..4] == hdr[..4]
      && mem[HTC_HDR_LENGTH..HTC_HDR_LENGTH + |data|] == data && mem[HTC_HDR_LENGTH + |data|..] == trailer + behind
  {
  }

  /** A message whose header was announced, carrying application data and printed records, is
      accepted, and everything in the records takes effect. */
  lemma GoodMessageAccepted(p: RxPacket, flags: Byte, control: Byte, data: seq<Byte>, rs: seq<Record>,
      behind: seq<Byte>, wants: bool)
    requires forall r :: r in rs ==> r.Valid()
    requires rs != [] && |Print(rs)| < 256 && |data| + |Print(rs)| < 0x10000
    requires flags / 2 % 2 == 1 && LOOKAHEAD_BYTES <= |behind| && p.endpoint < 256
    requires var hdr := Header(p.endpoint, flags, |data| + |Print(rs)|, |Print(rs)|, control);
      && (!p.flags.refreshHdr ==> p.expectedHdr == hdr[..4])
      && Prepared(p) && Holds(hdr + data + Print(rs) + behind, p)
      && HTC_HDR_LENGTH + |data| + |Print(rs)| <= p.bufferLength
    ensures var mem := Header(p.endpoint, flags, |data| + |Print(rs)|, |Print(rs)|, control) + data + Print(rs)
      + behind;
      && TrailerOutcome(p, mem, wants)
         == Outcome(true, CreditReports(rs), if wants && !p.flags.ignoreLookahead then LastLooks(rs, []) else [])
      && mem[HTC_HDR_LENGTH..HTC_HDR_LENGTH + PayloadLen(mem) - TrailerLen(mem)] == data
  {
    var trailer := Print(rs);
    var hdr := Header(p.endpoint, flags, |data| + |trailer|, |trailer|, control);
    var mem := hdr + data + trailer + behind;
    PrintIsLong(rs);
    MessageParts(hdr, data, trailer, behind);
    assert PayloadLen(mem) == |data| + |trailer|;
    RoundTrip(rs, behind, wants && !p.flags.ignoreLookahead, []);
  }

  /** One that carries application data and no records is accepted and leaves the data. */
  lemma PlainMessageAccepted(p: RxPacket, flags: Byte, length: Byte, control: Byte, data: seq<Byte>,
      behind: seq<Byte>, wants: bool)
    requires (flags / 2) % 2 == 0 && |data| < 0x10000 && p.endpoint < 256
    requires var hdr := Header(p.endpoint, flags, |data|, length, control);
      && (!p.flags.refreshHdr ==> p.expectedHdr == hdr[..4])
      && Prepared(p) && Holds(hdr + data + behind, p) && HTC_HDR_LENGTH + |data| <= p.bufferLength
    ensures var mem := Header(p.endpoint, flags, |data|, length, control) + data + behind;
      && TrailerOutcome(p, mem, wants) == Outcome(true, [], [])
      && mem[HTC_HDR_LENGTH..HTC_HDR_LENGTH + PayloadLen(mem) - TrailerLen(mem)] == data
  {
    var hdr := Header(p.endpoint, flags, |data|, length, control);
    MessageParts(hdr, data, behind, []);
    assert hdr + data + behind == hdr + data + behind + [];
    PlainMessage(p, hdr + data + behind, wants);
  }

  lemma PrintIsLong(rs: seq<Record>)
    requires rs != [] && forall r :: r in rs ==> r.Valid()
    ensures 2 <= |Print(rs)|
  {
  }
}
