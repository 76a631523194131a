/** Receive buffers: taking one for every announced message, giving them back on failure, and
    supplying new ones. Every buffer stays accounted for. */
module HtcRecvBuffers {
  import opened CreditMath
  import opened SeqFacts
  import opened HtcSendSpec
  import opened HtcRecvTrailer
  import opened HtcRecvPacket

  const MAX_PAYLOAD_LENGTH: nat := 4090

  datatype MaybePacket = None | Some(packet: RxPacket)

  datatype Status = Ok | Eproto | Ecanceled | NoResource | Einval

  /** What the driver and the device decide, by the number of the question: the packet an
      allocation callback returns, the packets that arrive while the lock is released for a
      refill, and whether HTC is being stopped. `pad` is the device's rounding of a read. */
  datatype Env = Env(alloc: nat -> MaybePacket, arrivals: nat -> seq<RxPacket>, stopping: nat -> bool, pad: nat -> nat,
                     hasAlloc: bool, hasAllocThresh: bool, threshold: nat, hasRefill: bool) {
    ghost predicate Valid() { forall n: nat :: n <= pad(n) }
  }

  // --- accounting ---------------------------------------------------------------------------

  /** How often the buffer with a given id occurs. */
  function Times(x: nat, q: seq<RxPacket>): nat
  {
    if q == [] then 0 else (if q[0].id == x then 1 else 0) + Times(x, q[1..])
  }

  lemma {:induction false} TimesConcat(x: nat, a: seq<RxPacket>, b: seq<RxPacket>)
    ensures Times(x, a + b) == Times(x, a) + Times(x, b)
  {
    if a == [] {
      assert a + b == b;
    } else {
      assert (a + b)[1..] == a[1..] + b;
      TimesConcat(x, a[1..], b);
    }
  }

  lemma TimesOne(x: nat, p: RxPacket)
    ensures Times(x, [p]) == if p.id == x then 1 else 0
  {
    assert [p][1..] == [];
  }

  // --- what a look-ahead asks for -------------------------------------------------------------

  /** A buffer to be taken: for the announced message itself, or for one that follows it with
      the same length and a header yet unknown. */
  datatype Slot = Slot(announced: Word, first: bool)

  function Count(la: Word): nat
    requires |la| == 4
  {
    if la[1] / 16 == 0 then 1 else la[1] / 16 + 1
  }

  function SlotsFrom(la: Word, j: nat, n: nat): (r: seq<Slot>)
    ensures |r| == if j < n then n - j else 0
    ensures forall k :: 0 <= k < |r| ==> r[k] == Slot(la, j + k == 0)
    decreases n - j
  {
    if j >= n then [] else [Slot(la, j == 0)] + SlotsFrom(la, j + 1, n)
  }

  /** The buffers asked for by a list of look-aheads, in order. */
  function Plan(las: seq<Word>): seq<Slot>
    requires AllWords(las)
  {
    if las == [] then [] else SlotsFrom(las[0], 0, Count(las[0])) + Plan(las[1..])
  }

  predicate AllWords(las: seq<Word>) {
    forall i :: 0 <= i < |las| ==> |las[i]| == 4
  }

  predicate Fetchable(la: Word, id: nat, service: nat)
    requires |la| == 4
  {
    la[0] < ENDPOINT_MAX && la[0] == id && PayloadLen(la) <= MAX_PAYLOAD_LENGTH && service != 0
  }

  /** How many look-aheads from the front can be fetched. */
  function FetchableFront(las: seq<Word>, id: nat, service: nat): (r: nat)
    requires AllWords(las)
    ensures r <= |las| && (r < |las| ==> !Fetchable(las[r], id, service))
    ensures forall i :: 0 <= i < r ==> Fetchable(las[i], id, service)
  {
    if las == [] || !Fetchable(las[0], id, service) then 0 else 1 + FetchableFront(las[1..], id, service)
  }

  predicate Fills(env: Env, p: RxPacket, s: Slot)
  {
    && |s.announced| == 4
    && p.actualLength == PayloadLen(s.announced) + HTC_HDR_LENGTH && env.pad(p.actualLength) <= p.bufferLength
    && p.flags == RxFlags(false, !s.first, false, Asked(env, s)) && !p.canceled
    && p.expectedHdr == if s.first then s.announced else [0xFF, 0xFF, 0xFF, 0xFF]
  }

  /** The driver is asked for the buffer, which then is not recycled. */
  predicate Asked(env: Env, s: Slot)
    requires |s.announced| == 4
  {
    env.hasAlloc || (env.hasAllocThresh && env.threshold < env.pad(PayloadLen(s.announced) + 6))
  }

  ghost predicate FillFront(env: Env, q: seq<RxPacket>, slots: seq<Slot>) {
    |q| <= |slots| && forall k :: 0 <= k < |q| ==> Fills(env, q[k], slots[k])
  }

  /** A filled slot is a packet that HTCProcessRecvHeader can work with. */
  lemma FilledIsPrepared(env: Env, q: seq<RxPacket>, slots: seq<Slot>)
    requires env.Valid() && FillFront(env, q, slots)
    ensures forall k :: 0 <= k < |q| ==> Prepared(q[k])
  {
    forall k | 0 <= k < |q|
      ensures Prepared(q[k])
    {
      assert Fills(env, q[k], slots[k]) && q[k].actualLength <= env.pad(q[k].actualLength);
    }
  }

  // --- taking and preparing buffers ---------------------------------------------------------

  /** The endpoint's own buffers, and the number of the next question. */
  datatype Pool = Pool(rx: seq<RxPacket>, asked: nat)

  datatype Taken = Taken(buffer: MaybePacket, noRecycle: bool, pool: Pool, supplied: seq<RxPacket>)

  /** A buffer comes from the callback, the threshold callback, or the head of the endpoint's
      list, which may be refilled first. */
  function Take(env: Env, pool: Pool, fullLength: nat): Taken
  {
    if env.hasAlloc || (env.hasAllocThresh && fullLength > env.threshold) then
      var buffer := env.alloc(pool.asked);
      Taken(buffer, true, pool.(asked := pool.asked + 1), if buffer.Some? then [buffer.packet] else [])
    else
      var refill := pool.rx == [] && env.hasRefill;
      var supplied := if refill then env.arrivals(pool.asked) else [];
      var rx, asked := pool.rx + supplied, if refill then pool.asked + 1 else pool.asked;
      if rx == [] then Taken(None, false, Pool(rx, asked), supplied)
      else Taken(Some(rx[0]), false, Pool(rx[1..], asked), supplied)
  }

  /** The driver is asked when it wants to be; otherwise the head of the list is taken. A refill is
      asked for only when the list is empty and the driver has a callback for it. */
  lemma TakenIs(env: Env, pool: Pool, fullLength: nat)
    ensures var t, byDriver := Take(env, pool, fullLength), env.hasAlloc ||
        (env.hasAllocThresh && env.threshold < fullLength);
      && t.noRecycle == byDriver
      && (byDriver ==> t.buffer == env.alloc(pool.asked) && t.pool == Pool(pool.rx, pool.asked + 1))
      && (!byDriver && pool.rx != [] ==>
            t.buffer == Some(pool.rx[0]) && t.pool == Pool(pool.rx[1..], pool.asked) && t.supplied == [])
      && (!byDriver && pool.rx == [] && !env.hasRefill ==> t.buffer == None && t.pool == pool && t.supplied == [])
      && (!byDriver && pool.rx == [] && env.hasRefill ==>
            t.supplied == env.arrivals(pool.asked) && t.pool.asked == pool.asked + 1
            && (if t.supplied == [] then t.buffer == None && t.pool.rx == []
                else t.buffer == Some(t.supplied[0]) && t.pool.rx == t.supplied[1..]))
  {
    if pool.rx == [] && env.hasRefill { assert pool.rx + env.arrivals(pool.asked) == env.arrivals(pool.asked); }
  }

  /** `supplied` are the buffers that came in from outside. */
  datatype Haul = Haul(status: Status, packets: seq<RxPacket>, pool: Pool, supplied: seq<RxPacket>)

  function Readied(p: RxPacket, la: Word, first: bool): RxPacket
    requires |la| == 4
  {
    p.(flags := p.flags.(refreshHdr := !first), expectedHdr := if first then la else [0xFF, 0xFF, 0xFF, 0xFF],
       actualLength := PayloadLen(la) + HTC_HDR_LENGTH)
  }

  /** A buffer for one message. One that cannot be used is queued all the same, so that it goes
      back with the others. */
  function PrepareNext(env: Env, pool: Pool, la: Word, first: bool): (r: Haul)
    requires |la| == 4
    ensures |r.packets| == if r.status == NoResource then 0 else 1
    ensures r.status != Einval
  {
    var fullLength := env.pad(PayloadLen(la) + HTC_HDR_LENGTH);
    var t := Take(env, pool, fullLength);
    if t.buffer.None? then Haul(NoResource, [], t.pool, t.supplied)
    else
      var p := t.buffer.packet.(flags := RxFlags(false, false, false, t.noRecycle), canceled := false);
      var asked := t.pool.(asked := t.pool.asked + 1);
      if env.stopping(t.pool.asked) then Haul(Ecanceled, [p], asked, t.supplied)
      else if fullLength > p.bufferLength then Haul(Eproto, [p], asked, t.supplied)
      else Haul(Ok, [Readied(p, la, first)], asked, t.supplied)
  }

  function Behind(first: Haul, more: Haul): Haul
  {
    more.(packets := first.packets + more.packets, supplied := first.supplied + more.supplied)
  }

  /** Buffers for the messages `j` to `n` - 1 of a look-ahead. */
  function PrepareFrom(env: Env, pool: Pool, la: Word, j: nat, n: nat): (r: Haul)
    requires |la| == 4
    ensures r.status != Einval
    decreases n - j
  {
    if j >= n then Haul(Ok, [], pool, [])
    else
      var one := PrepareNext(env, pool, la, j == 0);
      if one.status != Ok then one else Behind(one, PrepareFrom(env, one.pool, la, j + 1, n))
  }

  /** Buffers for all announced messages. */
  function PrepareWords(env: Env, id: nat, service: nat, pool: Pool, las: seq<Word>): (r: Haul)
    requires AllWords(las)
    ensures r.status != Einval
    decreases |las|
  {
    if las == [] then Haul(Ok, [], pool, [])
    else if !Fetchable(las[0], id, service) then Haul(Eproto, [], pool, [])
    else
      var some := PrepareFrom(env, pool, las[0], 0, Count(las[0]));
      if some.status != Ok then some else Behind(some, PrepareWords(env, id, service, some.pool, las[1..]))
  }

  // --- what becomes of the buffers ------------------------------------------------------------

  /** Every buffer that was there or came in is still there or was taken. */
  ghost predicate Accounts(x: nat, rx: seq<RxPacket>, o: Haul) {
    Times(x, rx) + Times(x, o.supplied) == Times(x, o.pool.rx) + Times(x, o.packets)
  }

  lemma TakeAccounts(env: Env, pool: Pool, fullLength: nat, x: nat)
    ensures var t := Take(env, pool, fullLength);
      Times(x, pool.rx) + Times(x, t.supplied)
        == Times(x, t.pool.rx) + (if t.buffer.Some? && t.buffer.packet.id == x then 1 else 0)
  {
    var t := Take(env, pool, fullLength);
    if env.hasAlloc || (env.hasAllocThresh && fullLength > env.threshold) {
      if t.buffer.Some? { TimesOne(x, t.buffer.packet); }
    } else {
      TimesConcat(x, pool.rx, t.supplied);
    }
  }

  lemma NextAccounts(env: Env, pool: Pool, la: Word, first: bool, x: nat)
    requires |la| == 4
    ensures Accounts(x, pool.rx, PrepareNext(env, pool, la, first))
  {
    var t := Take(env, pool, env.pad(PayloadLen(la) + HTC_HDR_LENGTH));
    var o := PrepareNext(env, pool, la, first);
    TakeAccounts(env, pool, env.pad(PayloadLen(la) + HTC_HDR_LENGTH), x);
    assert o.pool.rx == t.pool.rx && o.supplied == t.supplied;
    if t.buffer.Some? {
      assert o.packets == [o.packets[0]] && o.packets[0].id == t.buffer.packet.id;
      TimesOne(x, o.packets[0]);
    }
  }

  lemma BehindAccounts(x: nat, rx: seq<RxPacket>, first: Haul, more: Haul)
    requires Accounts(x, rx, first) && Accounts(x, first.pool.rx, more)
    ensures Accounts(x, rx, Behind(first, more))
  {
    TimesConcat(x, first.packets, more.packets);
    TimesConcat(x, first.supplied, more.supplied);
  }

  lemma {:induction false} FromAccounts(env: Env, pool: Pool, la: Word, j: nat, n: nat, x: nat)
    requires |la| == 4
    ensures Accounts(x, pool.rx, PrepareFrom(env, pool, la, j, n))
    decreases n - j
  {
    if j < n {
      var one := PrepareNext(env, pool, la, j == 0);
      NextAccounts(env, pool, la, j == 0, x);
      if one.status == Ok {
        FromAccounts(env, one.pool, la, j + 1, n, x);
        BehindAccounts(x, pool.rx, one, PrepareFrom(env, one.pool, la, j + 1, n));
      }
    }
  }

  /** Taking buffers loses none of them. */
  lemma {:induction false} WordsAccount(env: Env, id: nat, service: nat, pool: Pool, las: seq<Word>, x: nat)
    requires AllWords(las)
    ensures Accounts(x, pool.rx, PrepareWords(env, id, service, pool, las))
    decreases |las|
  {
    if las != [] && Fetchable(las[0], id, service) {
      var some := PrepareFrom(env, pool, las[0], 0, Count(las[0]));
      FromAccounts(env, pool, las[0], 0, Count(las[0]), x);
      if some.status == Ok {
        WordsAccount(env, id, service, some.pool, las[1..], x);
        BehindAccounts(x, pool.rx, some, PrepareWords(env, id, service, some.pool, las[1..]));
      }
    }
  }

  /** The packets prepared before the last one fill their slots; the status says what came of
      the next slot. */
  ghost predicate Filled(env: Env, o: Haul, slots: seq<Slot>) {
    var n := |o.packets|;
    match o.status
    case Ok => FillFront(env, o.packets, slots) && n == |slots|
    case NoResource => FillFront(env, o.packets, slots) && n < |slots| && NoneForIt(env, o.pool, slots[n])
    case Ecanceled => 0 < n <= |slots| && FillFront(env, o.packets[..n - 1], slots) && 0 < o.pool.asked
      && env.stopping(o.pool.asked - 1) && Plain(env, o.packets[n - 1], slots[n - 1])
    case Eproto => 0 < n <= |slots| && FillFront(env, o.packets[..n - 1], slots)
      && TooShort(env, o.packets[n - 1], slots[n - 1]) && Plain(env, o.packets[n - 1], slots[n - 1])
    case Einval => false
  }

  /** There is no buffer for a slot: the callback that is asked for it has none, or the list is
      empty and nothing came when it was to be refilled. */
  ghost predicate NoneForIt(env: Env, pool: Pool, s: Slot) {
    && |s.announced| == 4
    && (if Asked(env, s) then 0 < pool.asked && env.alloc(pool.asked - 1) == None
        else pool.rx == [] && (env.hasRefill ==> 0 < pool.asked && env.arrivals(pool.asked - 1) == []))
  }

  /** A buffer as it was taken. */
  predicate Plain(env: Env, p: RxPacket, s: Slot) {
    |s.announced| == 4 && p.flags == RxFlags(false, false, false, Asked(env, s)) && !p.canceled
  }

  predicate TooShort(env: Env, p: RxPacket, s: Slot) {
    |s.announced| == 4 && p.bufferLength < env.pad(PayloadLen(s.announced) + HTC_HDR_LENGTH)
  }

  lemma NextFills(env: Env, pool: Pool, la: Word, first: bool)
    requires |la| == 4
    ensures Filled(env, PrepareNext(env, pool, la, first), [Slot(la, first)])
  {
  }

  lemma BehindFills(env: Env, first: Haul, more: Haul, a: seq<Slot>, b: seq<Slot>)
    requires first.status == Ok && Filled(env, first, a) && Filled(env, more, b)
    ensures Filled(env, Behind(first, more), a + b)
  {
    var all, n := first.packets + more.packets, |more.packets|;
    if more.status == Ecanceled || more.status == Eproto {
      assert all[..|all| - 1] == first.packets + more.packets[..n - 1];
      FillConcat(env, first.packets, more.packets[..n - 1], a, b);
      assert all[|all| - 1] == more.packets[n - 1] && (a + b)[|all| - 1] == b[n - 1];
    } else {
      FillConcat(env, first.packets, more.packets, a, b);
    }
  }

  lemma FillConcat(env: Env, q: seq<RxPacket>, r: seq<RxPacket>, a: seq<Slot>, b: seq<Slot>)
    requires FillFront(env, q, a) && |q| == |a| && FillFront(env, r, b)
    ensures FillFront(env, q + r, a + b)
  {
    forall k | 0 <= k < |q + r|
      ensures Fills(env, (q + r)[k], (a + b)[k])
    {
      if |q| <= k { assert (q + r)[k] == r[k - |q|] && (a + b)[k] == b[k - |q|]; }
    }
  }

  /** What stopped early does so with more slots behind. */
  lemma FillWider(env: Env, o: Haul, a: seq<Slot>, b: seq<Slot>)
    requires o.status != Ok && Filled(env, o, a)
    ensures Filled(env, o, a + b)
  {
  }

  lemma {:induction false} FromFills(env: Env, pool: Pool, la: Word, j: nat, n: nat)
    requires |la| == 4
    ensures Filled(env, PrepareFrom(env, pool, la, j, n), SlotsFrom(la, j, n))
    decreases n - j
  {
    if j < n {
      var one := PrepareNext(env, pool, la, j == 0);
      NextFills(env, pool, la, j == 0);
      if one.status == Ok {
        FromFills(env, one.pool, la, j + 1, n);
        BehindFills(env, one, PrepareFrom(env, one.pool, la, j + 1, n), [Slot(la, j == 0)], SlotsFrom(la, j + 1, n));
      } else {
        FillWider(env, one, [Slot(la, j == 0)], SlotsFrom(la, j + 1, n));
      }
    }
  }

  /** With `g` look-aheads that can be fetched in front: all their slots are filled, and the
      next look-ahead, if there is one, is refused; or filling them ended early. */
  ghost predicate Explained(env: Env, o: Haul, las: seq<Word>, g: nat)
    requires AllWords(las) && g <= |las|
  {
    var slots := Plan(las[..g]);
    || (o.status == Eproto && g < |las| && |o.packets| == |slots| && FillFront(env, o.packets, slots))
    || (Filled(env, o, slots) && (o.status == Ok ==> g == |las|))
  }

  /** Exactly what each status stands for. */
  lemma {:induction false} WordsFill(env: Env, id: nat, service: nat, pool: Pool, las: seq<Word>)
    requires AllWords(las)
    ensures Explained(env, PrepareWords(env, id, service, pool, las), las, FetchableFront(las, id, service))
    decreases |las|
  {
    if las != [] && Fetchable(las[0], id, service) {
      var tail, g := las[1..], FetchableFront(las, id, service);
      var some, a := PrepareFrom(env, pool, las[0], 0, Count(las[0])), SlotsFrom(las[0], 0, Count(las[0]));
      assert las[..g][1..] == tail[..g - 1] && las[..g][0] == las[0];
      assert Plan(las[..g]) == a + Plan(tail[..g - 1]);
      FromFills(env, pool, las[0], 0, Count(las[0]));
      if some.status == Ok {
        WordsFill(env, id, service, some.pool, tail);
        BehindExplained(env, some, PrepareWords(env, id, service, some.pool, tail), a, las, g);
      } else {
        FillWider(env, some, a, Plan(tail[..g - 1]));
      }
    } else {
      assert las[..0] == [];
    }
  }

  lemma BehindExplained(env: Env, some: Haul, more: Haul, a: seq<Slot>, las: seq<Word>, g: nat)
    requires AllWords(las) && 1 <= g <= |las| && some.status == Ok && Filled(env, some, a)
    requires Plan(las[..g]) == a + Plan(las[1..][..g - 1]) && Explained(env, more, las[1..], g - 1)
    ensures Explained(env, Behind(some, more), las, g)
  {
    var b := Plan(las[1..][..g - 1]);
    if Filled(env, more, b) {
      BehindFills(env, some, more, a, b);
    } else {
      FillConcat(env, some.packets, more.packets, a, b);
    }
  }

  // --- headers that announce messages -----------------------------------------------------------

  /** A header whose flags say how many messages of the same length follow it. */
  datatype Announcement = Announcement(flags: Byte, following: nat, length: nat) {
    predicate Valid() { flags < 16 && following < 16 && length < 0x10000 }
  }

  function HeaderWord(id: Byte, a: Announcement): (la: Word)
    requires a.Valid()
    ensures |la| == 4
  {
    [id, 16 * a.following + a.flags, a.length % 256, a.length / 256]
  }

  function HeaderWords(id: Byte, all: seq<Announcement>): (las: seq<Word>)
    requires forall a :: a in all ==> a.Valid()
    ensures |las| == |all| && AllWords(las)
    ensures forall i :: 0 <= i < |all| ==> las[i] == HeaderWord(id, all[i])
  {
    if all == [] then [] else [HeaderWord(id, all[0])] + HeaderWords(id, all[1..])
  }

  /** The announced messages and all that follow them. */
  function Messages(all: seq<Announcement>): nat
  {
    if all == [] then 0 else 1 + all[0].following + Messages(all[1..])
  }

  /** A buffer that waits for a message of the given length: with the announced header, or with
      one to be learned when it is read. */
  predicate WaitsFor(p: RxPacket, id: Byte, a: Announcement, announced: bool)
    requires a.Valid()
  {
    && p.actualLength == a.length + 6 && p.flags.refreshHdr == !announced
    && (announced ==> p.expectedHdr == HeaderWord(id, a)) && !p.flags.ignoreLookahead && !p.canceled
  }

  /** From place `at` on: a buffer for the message of a header, and then one for each that follows
      it. */
  ghost predicate InTurn(q: seq<RxPacket>, id: Byte, a: Announcement, at: nat)
    requires a.Valid()
  {
    && at + a.following < |q| && WaitsFor(q[at], id, a, true)
    && (forall k :: at < k <= at + a.following ==> WaitsFor(q[k], id, a, false))
  }

  /** The buffers of all headers, one header after the other. */
  ghost predicate AllInTurn(q: seq<RxPacket>, id: Byte, all: seq<Announcement>) {
    forall i :: 0 <= i < |all| ==> all[i].Valid() && InTurn(q, id, all[i], Messages(all[..i]))
  }

  /** A header is refused exactly when it names another endpoint or none at all, announces more
      than 4090 bytes, or the endpoint is bound to no service. */
  lemma RefusedIff(e: Byte, a: Announcement, id: nat, service: nat)
    requires a.Valid()
    ensures Fetchable(HeaderWord(e, a), id, service) <==> e == id && e < 9 && a.length <= 4090 && service != 0
  {
    CountIs(e, a);
  }

  lemma CountIs(id: Byte, a: Announcement)
    requires a.Valid()
    ensures Count(HeaderWord(id, a)) == a.following + 1 && PayloadLen(HeaderWord(id, a)) == a.length
  {
  }

  lemma FrontInTurn(env: Env, q: seq<RxPacket>, more: seq<RxPacket>, id: Byte, a: Announcement)
    requires a.Valid() && |q| == a.following + 1 && FillFront(env, q, SlotsFrom(HeaderWord(id, a), 0, a.following + 1))
    ensures InTurn(q + more, id, a, 0)
  {
    CountIs(id, a);
    forall k | 0 <= k <= a.following
      ensures WaitsFor((q + more)[k], id, a, k == 0)
    {
      assert Fills(env, q[k], SlotsFrom(HeaderWord(id, a), 0, a.following + 1)[k]);
    }
  }

  lemma RestInTurn(q: seq<RxPacket>, more: seq<RxPacket>, id: Byte, all: seq<Announcement>)
    requires all != [] && all[0].Valid() && |q| == all[0].following + 1
    requires InTurn(q + more, id, all[0], 0) && AllInTurn(more, id, all[1..])
    ensures AllInTurn(q + more, id, all)
  {
    forall i | 0 <= i < |all|
      ensures all[i].Valid() && InTurn(q + more, id, all[i], Messages(all[..i]))
    {
      if i > 0 {
        assert all[..i][1..] == all[1..][..i - 1] && all[1..][i - 1] == all[i];
        var at := Messages(all[1..][..i - 1]);
        assert InTurn(more, id, all[i], at) && Messages(all[..i]) == |q| + at;
        Shifted(q, more, id, all[i], at);
      }
    }
  }

  lemma Shifted(q: seq<RxPacket>, more: seq<RxPacket>, id: Byte, a: Announcement, at: nat)
    requires a.Valid() && InTurn(more, id, a, at)
    ensures InTurn(q + more, id, a, |q| + at)
  {
    forall k | |q| + at < k <= |q| + at + a.following
      ensures WaitsFor((q + more)[k], id, a, false)
    {
      assert (q + more)[k] == more[k - |q|];
    }
  }

  /** A success that waits for nothing leaves a buffer for every message announced, those of each
      header together and in order. */
  lemma {:induction false} EveryMessageGetsABuffer(env: Env, id: Byte, service: nat, pool: Pool,
      all: seq<Announcement>)
    requires forall a :: a in all ==> a.Valid()
    requires PrepareWords(env, id, service, pool, HeaderWords(id, all)).status == Ok
    ensures var q := PrepareWords(env, id, service, pool, HeaderWords(id, all)).packets;
      |q| == Messages(all) && AllInTurn(q, id, all)
    decreases |all|
  {
    if all != [] {
      var a, las := all[0], HeaderWords(id, all);
      assert a.Valid() && las[1..] == HeaderWords(id, all[1..]);
      var some := PrepareFrom(env, pool, las[0], 0, Count(las[0]));
      var more := PrepareWords(env, id, service, some.pool, las[1..]);
      CountIs(id, a);
      FromFills(env, pool, las[0], 0, Count(las[0]));
      EveryMessageGetsABuffer(env, id, service, some.pool, all[1..]);
      FrontInTurn(env, some.packets, more.packets, id, a);
      RestInTurn(some.packets, more.packets, id, all);
    }
  }

  // --- recycling ----------------------------------------------------------------------------

  function Reset(p: RxPacket): RxPacket
  {
    p.(offset := 0, actualLength := 0)
  }

  /** The recycled packets that end up in RxBuffers; `k` numbers the questions whether HTC is
      being stopped, one for each packet that may be recycled at all. */
  function Back(env: Env, q: seq<RxPacket>, k: nat): seq<RxPacket>
  {
    if q == [] then []
    else if q[0].flags.noRecycle then Back(env, q[1..], k)
    else (if env.stopping(k) then [] else [Reset(q[0])]) + Back(env, q[1..], k + 1)
  }

  /** Those that are returned to the driver as canceled. */
  function Away(env: Env, q: seq<RxPacket>, k: nat): seq<RxPacket>
  {
    if q == [] then []
    else if q[0].flags.noRecycle then [Reset(q[0]).(canceled := true)] + Away(env, q[1..], k)
    else (if env.stopping(k) then [Reset(q[0]).(canceled := true)] else []) + Away(env, q[1..], k + 1)
  }

  lemma RecycleStep(env: Env, q: seq<RxPacket>, rx: seq<RxPacket>, returned: seq<RxPacket>, k: nat)
    requires q != []
    ensures var j := if q[0].flags.noRecycle then k else k + 1;
      var away := q[0].flags.noRecycle || env.stopping(k);
      && rx + Back(env, q, k) == (rx + if away then [] else [Reset(q[0])]) + Back(env, q[1..], j)
      && returned + Away(env, q, k)
        == (returned + if away then [Reset(q[0]).(canceled := true)] else []) + Away(env, q[1..], j)
  {
  }

  /** Recycling loses no buffer. */
  lemma {:induction false} RecyclingSplits(env: Env, q: seq<RxPacket>, k: nat, x: nat)
    ensures Times(x, Back(env, q, k)) + Times(x, Away(env, q, k)) == Times(x, q)
  {
    if q != [] {
      var j := if q[0].flags.noRecycle then k else k + 1;
      var back, away := Back(env, q[1..], j), Away(env, q[1..], j);
      RecyclingSplits(env, q[1..], j, x);
      if q[0].flags.noRecycle || env.stopping(k) {
        var gone := Reset(q[0]).(canceled := true);
        assert Back(env, q, k) == back && Away(env, q, k) == [gone] + away;
        TimesConcat(x, [gone], away);
        TimesOne(x, gone);
      } else {
        assert Back(env, q, k) == [Reset(q[0])] + back && Away(env, q, k) == away;
        TimesConcat(x, [Reset(q[0])], back);
        TimesOne(x, Reset(q[0]));
      }
    }
  }

  /** After a failure every buffer that was there or came in is in the list or was returned. */
  lemma FailureAccounts(env: Env, id: nat, service: nat, pool: Pool, las: seq<Word>, x: nat)
    requires AllWords(las)
    ensures var o := PrepareWords(env, id, service, pool, las);
      Times(x, pool.rx) + Times(x, o.supplied)
        == Times(x, o.pool.rx + Back(env, o.packets, o.pool.asked)) + Times(x, Away(env, o.packets, o.pool.asked))
  {
    var o := PrepareWords(env, id, service, pool, las);
    WordsAccount(env, id, service, pool, las, x);
    RecyclingSplits(env, o.packets, o.pool.asked, x);
    TimesConcat(x, o.pool.rx, Back(env, o.packets, o.pool.asked));
  }

  /** What goes back is clean and came from the endpoint's own buffers; what goes away is
      marked canceled, and unless HTC was being stopped it came from an allocation callback. */
  lemma {:induction false} RecyclingSorts(env: Env, q: seq<RxPacket>, k: nat)
    ensures forall p :: p in Back(env, q, k) ==> !p.flags.noRecycle && p.offset == 0 && p.actualLength == 0
    ensures forall p :: p in Away(env, q, k) ==>
      p.canceled && (p.flags.noRecycle || exists i :: k <= i && env.stopping(i))
  {
    if q != [] { RecyclingSorts(env, q[1..], if q[0].flags.noRecycle then k else k + 1); }
  }

  // --- in place -----------------------------------------------------------------------------

  class RxEndpoint {
    const Id: nat
    const ServiceID: nat
    const env: Env
    var RxBuffers: seq<RxPacket>
    var Returned: seq<RxPacket>
    var WaitBuffers: bool
    var EpWaitingForBuffers: nat
    var Questions: nat

    function State(): Pool
      reads this
    {
      Pool(RxBuffers, Questions)
    }

    /** Takes a buffer in the way the driver set up for the endpoint. */
    method GetBuffer(fullLength: nat) returns (pPacket: MaybePacket, noRecycle: bool, ghost supplied: seq<RxPacket>)
      modifies this`RxBuffers, this`Questions
      ensures Take(env, old(State()), fullLength) == Taken(pPacket, noRecycle, State(), supplied)
    {
      noRecycle, supplied := false, [];
      if env.hasAlloc || (env.hasAllocThresh && fullLength > env.threshold) {
        noRecycle := true;
        pPacket := env.alloc(Questions);
        Questions := Questions + 1;
        if pPacket.Some? {
          supplied := [pPacket.packet];
        }
        return;
      }
      if RxBuffers == [] && env.hasRefill {
        supplied := env.arrivals(Questions);
        RxBuffers := env.arrivals(Questions);
        Questions := Questions + 1;
      }
      if RxBuffers == [] {
        return None, noRecycle, supplied;
      }
      pPacket := Some(RxBuffers[0]);
      RxBuffers := RxBuffers[1..];
    }

    /** Whether the endpoint was marked as waiting for buffers, and otherwise left alone. */
    twostate predicate Marked(marked: bool)
      reads this
    {
      if marked then WaitBuffers && EpWaitingForBuffers == Id
      else WaitBuffers == old(WaitBuffers) && EpWaitingForBuffers == old(EpWaitingForBuffers)
    }

    /** A buffer for one message. */
    method PrepareOne(la: Word, first: bool)
      returns (status: Status, packets: seq<RxPacket>, ghost supplied: seq<RxPacket>)
      requires |la| == 4
      modifies this`RxBuffers, this`Questions, this`WaitBuffers, this`EpWaitingForBuffers
      ensures PrepareNext(env, old(State()), la, first) == Haul(status, packets, State(), supplied)
      ensures Marked(status == NoResource)
    {
      var fullLength := env.pad(PayloadLen(la) + HTC_HDR_LENGTH);
      var pPacket, noRecycle;
      pPacket, noRecycle, supplied := GetBuffer(fullLength);
      if pPacket.None? {
        WaitBuffers := true;
        EpWaitingForBuffers := Id;
        return NoResource, [], supplied;
      }
      var packet := pPacket.packet.(flags := RxFlags(false, false, false, noRecycle), canceled := false);
      var stopping := env.stopping(Questions);
      Questions := Questions + 1;
      if stopping {
        return Ecanceled, [packet], supplied;
      }
      if fullLength > packet.bufferLength {
        return Eproto, [packet], supplied;
      }
      if !first {
        packet := packet.(flags := packet.flags.(refreshHdr := true), expectedHdr := [0xFF, 0xFF, 0xFF, 0xFF]);
      } else {
        packet := packet.(expectedHdr := la);
      }
      packet := packet.(actualLength := PayloadLen(la) + HTC_HDR_LENGTH);
      return Ok, [packet], supplied;
    }

    method PrepareOneMore(la: Word, j: nat, n: nat, before: seq<RxPacket>, ghost came: seq<RxPacket>, ghost all: Haul)
      returns (status: Status, packets: seq<RxPacket>, ghost supplied: seq<RxPacket>)
      requires |la| == 4 && j < n && MessagesLead(env, Haul(Ok, before, State(), came), la, j, n, all)
      modifies this`RxBuffers, this`Questions, this`WaitBuffers, this`EpWaitingForBuffers
      ensures Marked(status == NoResource)
      ensures status == Ok ==> MessagesLead(env, Haul(Ok, packets, State(), supplied), la, j + 1, n, all)
      ensures status != Ok ==> all == Haul(status, packets, State(), supplied)
    {
      ghost var done := Haul(Ok, before, State(), came);
      MessagesStep(env, done, la, j, n, all);
      status, packets, supplied := PrepareOne(la, j == 0);
      packets, supplied := before + packets, came + supplied;
    }

    /** Buffers for one look-ahead and the messages that follow it. */
    method PrepareMessages(la: Word, numMessages: nat)
      returns (status: Status, packets: seq<RxPacket>, ghost supplied: seq<RxPacket>)
      requires |la| == 4
      modifies this`RxBuffers, this`Questions, this`WaitBuffers, this`EpWaitingForBuffers
      ensures PrepareFrom(env, old(State()), la, 0, numMessages) == Haul(status, packets, State(), supplied)
      ensures Marked(status == NoResource)
    {
      status, packets, supplied := Ok, [], [];
      ghost var all := PrepareFrom(env, State(), la, 0, numMessages);
      ghost var done := Haul(Ok, [], State(), []);
      var j := 0;
      while j < numMessages
        invariant 0 <= j <= numMessages && status == Ok && Marked(false)
        invariant done == Haul(Ok, packets, State(), supplied) && MessagesLead(env, done, la, j, numMessages, all)
      {
        status, packets, supplied := PrepareOneMore(la, j, numMessages, packets, supplied, all);
        done := Haul(status, packets, State(), supplied);
        if status != Ok {
          return;
        }
        j := j + 1;
      }
    }

    /** Takes and prepares a buffer for every announced message, in order. Running out of
        buffers is not an error: the front that got one is kept and the endpoint is marked as
        waiting. */
    method PrepareAll(LookAheads: seq<Word>)
      returns (status: Status, pQueue: seq<RxPacket>, ghost supplied: seq<RxPacket>)
      requires AllWords(LookAheads)
      modifies this`RxBuffers, this`Questions, this`WaitBuffers, this`EpWaitingForBuffers
      ensures var o := PrepareWords(env, Id, ServiceID, old(State()), LookAheads);
        && o == Haul(o.status, pQueue, State(), supplied) && Marked(o.status == NoResource)
        && status == (if o.status == NoResource then Ok else o.status)
    {
      status, pQueue, supplied := Ok, [], [];
      ghost var all := PrepareWords(env, Id, ServiceID, State(), LookAheads);
      var i := 0;
      assert LookAheads[0..] == LookAheads;
      while i < |LookAheads|
        invariant 0 <= i <= |LookAheads| && status == Ok && Marked(false)
        invariant WordsLead(env, Id, ServiceID, Haul(Ok, pQueue, State(), supplied), LookAheads[i..], all)
      {
        ghost var done := Haul(Ok, pQueue, State(), supplied);
        WordsStep(env, Id, ServiceID, done, LookAheads[i..], all);
        if !Fetchable(LookAheads[i], Id, ServiceID) {
          return Eproto, pQueue, supplied;
        }
        assert LookAheads[i..][1..] == LookAheads[i + 1..];
        var more;
        ghost var extra;
        status, more, extra := PrepareMessages(LookAheads[i], Count(LookAheads[i]));
        pQueue, supplied := pQueue + more, supplied + extra;
        if status == NoResource {
          return Ok, pQueue, supplied;
        }
        if status != Ok {
          return;
        }
        i := i + 1;
      }
    }

    /** As PrepareAll; on an error every buffer taken goes back. */
    method AllocAndPrepareRxPackets(LookAheads: seq<Word>)
      returns (status: Status, pQueue: seq<RxPacket>, ghost supplied: seq<RxPacket>)
      requires AllWords(LookAheads)
      modifies this
      ensures var o := PrepareWords(env, Id, ServiceID, old(State()), LookAheads);
        && status == (if o.status == NoResource then Ok else o.status) && supplied == o.supplied
        && (status == Ok ==>
          && pQueue == o.packets && State() == o.pool && Returned == old(Returned)
          && (if o.status == NoResource then WaitBuffers && EpWaitingForBuffers == Id
              else WaitBuffers == old(WaitBuffers) && EpWaitingForBuffers == old(EpWaitingForBuffers)))
        && (status != Ok ==> pQueue == [] && RxBuffers == o.pool.rx + Back(env, o.packets, o.pool.asked)
                             && Returned == old(Returned) + Away(env, o.packets, o.pool.asked))
    {
      status, pQueue, supplied := PrepareAll(LookAheads);
      if status != Ok {
        RecycleAll(pQueue);
        pQueue := [];
      }
    }

    /** Gives back buffers that will not be filled. */
    method RecycleAll(queue: seq<RxPacket>)
      modifies this`RxBuffers, this`Returned, this`WaitBuffers, this`EpWaitingForBuffers, this`Questions
      ensures RxBuffers == old(RxBuffers) + Back(env, queue, old(Questions))
      ensures Returned == old(Returned) + Away(env, queue, old(Questions))
    {
      ghost var rx, returned := RxBuffers + Back(env, queue, Questions), Returned + Away(env, queue, Questions);
      var rest := queue;
      while rest != []
        invariant RxBuffers + Back(env, rest, Questions) == rx && Returned + Away(env, rest, Questions) == returned
        decreases |rest|
      {
        RecycleStep(env, rest, RxBuffers, Returned, Questions);
        Recycle(rest[0]);
        rest := rest[1..];
      }
    }

    /** The recycle macro. */
    method Recycle(pPacket: RxPacket)
      modifies this`RxBuffers, this`Returned, this`WaitBuffers, this`EpWaitingForBuffers, this`Questions
      ensures Questions == if pPacket.flags.noRecycle then old(Questions) else old(Questions) + 1
      ensures RxBuffers == old(RxBuffers)
        + (if pPacket.flags.noRecycle || env.stopping(old(Questions)) then [] else [Reset(pPacket)])
      ensures Returned == old(Returned) +
        (if pPacket.flags.noRecycle || env.stopping(old(Questions)) then [Reset(pPacket).(canceled := true)] else [])
    {
      if pPacket.flags.noRecycle {
        Returned := Returned + [Reset(pPacket).(canceled := true)];
      } else {
        var status, unblockRecv := AddReceivePktMultiple([Reset(pPacket)]);
        assert [Reset(pPacket)][1..] == [];
      }
    }

    /** The driver supplies buffers. They are kept unless HTC is being stopped, and unblock the
        receiver when it was waiting for this endpoint. */
    method AddReceivePktMultiple(pPktQueue: seq<RxPacket>) returns (status: Status, unblockRecv: bool)
      modifies this`RxBuffers, this`Returned, this`WaitBuffers, this`EpWaitingForBuffers, this`Questions
      ensures status == if pPktQueue == [] then Einval else Ok
      ensures pPktQueue == []
        ==> RxBuffers == old(RxBuffers) && Returned == old(Returned) && Questions == old(Questions) && !unblockRecv
      ensures pPktQueue != [] ==> Questions == old(Questions) + 1
      ensures pPktQueue != [] && env.stopping(old(Questions)) ==>
        RxBuffers == old(RxBuffers) && Returned == old(Returned) + Canceled(pPktQueue)
          && WaitBuffers == old(WaitBuffers) && !unblockRecv
      ensures pPktQueue != [] && !env.stopping(old(Questions)) ==>
        && RxBuffers == old(RxBuffers) + pPktQueue && Returned == old(Returned)
        && unblockRecv == (old(WaitBuffers) && old(EpWaitingForBuffers) == pPktQueue[0].endpoint)
        && WaitBuffers == (old(WaitBuffers) && !unblockRecv)
      ensures EpWaitingForBuffers == if unblockRecv then ENDPOINT_MAX else old(EpWaitingForBuffers)
    {
      unblockRecv := false;
      if pPktQueue == [] {
        return Einval, false;
      }
      status := Ok;
      var stopping := env.stopping(Questions);
      Questions := Questions + 1;
      if stopping {
        Returned := Returned + Canceled(pPktQueue);
        return;
      }
      RxBuffers := RxBuffers + pPktQueue;
      if WaitBuffers {
        if EpWaitingForBuffers == pPktQueue[0].endpoint {
          WaitBuffers := false;
          EpWaitingForBuffers := ENDPOINT_MAX;
          unblockRecv := true;
        }
      }
    }
  }

  function Canceled(q: seq<RxPacket>): (r: seq<RxPacket>)
    ensures |r| == |q| && forall i :: 0 <= i < |r| ==> r[i] == q[i].(canceled := true)
  {
    if q == [] then [] else [q[0].(canceled := true)] + Canceled(q[1..])
  }

  /** Having done `done`, the messages from `j` on complete `all`. */
  ghost predicate MessagesLead(env: Env, done: Haul, la: Word, j: nat, n: nat, all: Haul)
    requires |la| == 4
  {
    all == Behind(done, PrepareFrom(env, done.pool, la, j, n))
  }

  lemma BehindBehind(done: Haul, next: Haul, more: Haul)
    ensures Behind(done, Behind(next, more)) == Behind(Behind(done, next), more)
  {
    Regroup(done.packets, next.packets, more.packets);
    Regroup(done.supplied, next.supplied, more.supplied);
  }

  lemma MessagesStep(env: Env, done: Haul, la: Word, j: nat, n: nat, all: Haul)
    requires |la| == 4 && j < n && MessagesLead(env, done, la, j, n, all)
    ensures var now := Behind(done, PrepareNext(env, done.pool, la, j == 0));
      if now.status == Ok then MessagesLead(env, now, la, j + 1, n, all) else all == now
  {
    var one := PrepareNext(env, done.pool, la, j == 0);
    BehindBehind(done, one, PrepareFrom(env, one.pool, la, j + 1, n));
  }

  ghost predicate WordsLead(env: Env, id: nat, service: nat, done: Haul, las: seq<Word>, all: Haul)
    requires AllWords(las)
  {
    all == Behind(done, PrepareWords(env, id, service, done.pool, las))
  }

  lemma WordsStep(env: Env, id: nat, service: nat, done: Haul, las: seq<Word>, all: Haul)
    requires AllWords(las) && las != [] && WordsLead(env, id, service, done, las, all)
    ensures if !Fetchable(las[0], id, service) then all == done.(status := Eproto)
      else
        var now := Behind(done, PrepareFrom(env, done.pool, las[0], 0, Count(las[0])));
        if now.status == Ok then WordsLead(env, id, service, now, las[1..], all) else all == now
  {
    if Fetchable(las[0], id, service) {
      var some := PrepareFrom(env, done.pool, las[0], 0, Count(las[0]));
      BehindBehind(done, some, PrepareWords(env, id, service, some.pool, las[1..]));
    }
  }
}
