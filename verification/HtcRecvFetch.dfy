/** Fetching a batch of announced messages: in scatter requests where they fit, one by one
    where they do not, each message exactly once and in order. */
module HtcRecvFetch {
  import opened SeqFacts
  import opened HtcRecvPacket

  /** `pad` is the device's rounding of a transfer, `alloc(k)` whether the k-th request for a
      scatter list is granted; both are arbitrary. */
  datatype RecvRules = RecvRules(pad: nat -> nat, alloc: nat -> bool, bundling: bool, maxPerBundle: nat, maxBytes: nat)

  /** A packet handed to the device: whether look-aheads in it are to be ignored, and whether
      it travels in a scatter request. */
  datatype Got = Got(packet: RxPacket, ignore: bool, inBundle: bool)

  datatype Fetch = Scatter(gots: seq<Got>) | Single(got: Got)

  /** The front of the queue that fits one scatter request of `slots` entries. */
  function Collect(rules: RecvRules, q: seq<RxPacket>, slots: nat, space: nat, partial: bool): (r: seq<Got>)
    ensures |r| <= slots && |r| <= |q|
  {
    if slots == 0 || q == [] || space < rules.pad(q[0].actualLength) then []
    else
      [Got(q[0], partial || slots > 1, true)]
      + Collect(rules, q[1..], slots - 1, space - rules.pad(q[0].actualLength), partial)
  }

  function Slots(rules: RecvRules, q: seq<RxPacket>): (r: nat)
    ensures r <= |q|
  {
    if |q| < rules.maxPerBundle then |q| else rules.maxPerBundle
  }

  datatype Turn = Turn(fetches: seq<Fetch>, rest: seq<RxPacket>, partial: bool, attempts: nat)

  /** What HTCIssueRecvPacketBundle submits, if a scatter list is granted. */
  function BundleTurn(rules: RecvRules, q: seq<RxPacket>, partial: bool, k: nat): (r: Turn)
    ensures |r.rest| <= |q|
  {
    if rules.alloc(k) then
      var gots := Collect(rules, q, Slots(rules, q), rules.maxBytes, partial || Slots(rules, q) < |q|);
      Turn([Scatter(gots)], q[|gots|..], partial, k + 1)
    else Turn([], q, partial, k + 1)
  }

  /** One pass of the fetch loop. */
  function TurnOf(rules: RecvRules, q: seq<RxPacket>, partial: bool, k: nat): (r: Turn)
    requires q != []
    ensures |r.rest| < |q|
  {
    if rules.bundling && |q| > 1 then
      var b := BundleTurn(rules, q, partial, k);
      var broken := partial || b.rest != [];
      if |b.rest| < |q| then b.(partial := broken)
      else Turn(b.fetches + [Single(Got(q[0], true, false))], q[1..], broken, b.attempts)
    else Turn([Single(Got(q[0], |q| > 1, false))], q[1..], partial, k)
  }

  function FetchAll(rules: RecvRules, q: seq<RxPacket>, partial: bool, k: nat): seq<Fetch>
    decreases |q|
  {
    if q == [] then []
    else
      var t := TurnOf(rules, q, partial, k);
      t.fetches + FetchAll(rules, t.rest, t.partial, t.attempts)
  }

  function Gots(fetches: seq<Fetch>): seq<Got>
  {
    if fetches == [] then []
    else (match fetches[0] case Scatter(gots) => gots case Single(got) => [got]) + Gots(fetches[1..])
  }

  lemma {:induction false} GotsConcat(a: seq<Fetch>, b: seq<Fetch>)
    ensures Gots(a + b) == Gots(a) + Gots(b)
  {
    if a == [] {
      assert a + b == b;
    } else {
      assert (a + b)[1..] == a[1..] + b;
      GotsConcat(a[1..], b);
    }
  }

  function Packets(gots: seq<Got>): (r: seq<RxPacket>)
    ensures |r| == |gots|
  {
    if gots == [] then [] else [gots[0].packet] + Packets(gots[1..])
  }

  lemma {:induction false} PacketsConcat(a: seq<Got>, b: seq<Got>)
    ensures Packets(a + b) == Packets(a) + Packets(b)
  {
    if a == [] {
      assert a + b == b;
    } else {
      assert (a + b)[1..] == a[1..] + b;
      PacketsConcat(a[1..], b);
    }
  }

  function Bytes(rules: RecvRules, gots: seq<Got>): nat
  {
    if gots == [] then 0 else rules.pad(gots[0].packet.actualLength) + Bytes(rules, gots[1..])
  }

  lemma {:induction false} CollectIsPrefix(rules: RecvRules, q: seq<RxPacket>, slots: nat, space: nat, partial: bool)
    ensures var r := Collect(rules, q, slots, space, partial); Packets(r) + q[|r|..] == q
  {
    if slots != 0 && q != [] && rules.pad(q[0].actualLength) <= space {
      var left := space - rules.pad(q[0].actualLength);
      CollectIsPrefix(rules, q[1..], slots - 1, left, partial);
      var more := Collect(rules, q[1..], slots - 1, left, partial);
      assert ([Got(q[0], partial || slots > 1, true)] + more)[1..] == more;
      assert q[1..][|more|..] == q[|more| + 1..];
      Regroup([q[0]], Packets(more), q[1..][|more|..]);
    }
  }

  /** A scatter request carries the longest front of the queue that fits it. */
  lemma {:induction false} CollectIsLongest(rules: RecvRules, q: seq<RxPacket>, slots: nat, space: nat, partial: bool)
    ensures var r := Collect(rules, q, slots, space, partial);
      && Bytes(rules, r) <= space
      && (|r| < slots && |r| < |q| ==> space < Bytes(rules, r) + rules.pad(q[|r|].actualLength))
  {
    if slots != 0 && q != [] && rules.pad(q[0].actualLength) <= space {
      var left := space - rules.pad(q[0].actualLength);
      CollectIsLongest(rules, q[1..], slots - 1, left, partial);
      var more := Collect(rules, q[1..], slots - 1, left, partial);
      assert ([Got(q[0], partial || slots > 1, true)] + more)[1..] == more;
    }
  }

  /** Only the last of `slots` packets keeps its look-ahead, and not even that one in a broken
      bundle. */
  ghost predicate MarksOk(gots: seq<Got>, slots: nat, partial: bool) {
    forall i :: 0 <= i < |gots| ==> gots[i].inBundle && gots[i].ignore == (partial || i < slots - 1)
  }

  lemma {:induction false} CollectMarks(rules: RecvRules, q: seq<RxPacket>, slots: nat, space: nat, partial: bool)
    ensures MarksOk(Collect(rules, q, slots, space, partial), slots, partial)
  {
    if slots != 0 && q != [] && rules.pad(q[0].actualLength) <= space {
      var left := space - rules.pad(q[0].actualLength);
      CollectMarks(rules, q[1..], slots - 1, left, partial);
      MarksCons(Got(q[0], partial || slots > 1, true), Collect(rules, q[1..], slots - 1, left, partial), slots,
        partial);
    }
  }

  lemma MarksCons(first: Got, more: seq<Got>, slots: nat, partial: bool)
    requires 0 < slots && MarksOk(more, slots - 1, partial)
    requires first.inBundle && first.ignore == (partial || slots > 1)
    ensures MarksOk([first] + more, slots, partial)
  {
    forall i | 0 <= i < |[first] + more|
      ensures ([first] + more)[i].inBundle && ([first] + more)[i].ignore == (partial || i < slots - 1)
    {
      if i > 0 { assert ([first] + more)[i] == more[i - 1]; }
    }
  }

  /** The requests of one pass: at most one scatter request, then a single packet if that
      fetched nothing. */
  lemma TurnGots(rules: RecvRules, q: seq<RxPacket>, partial: bool, k: nat)
    requires q != []
    ensures var t := TurnOf(rules, q, partial, k);
      var slots := Slots(rules, q);
      var gots := Collect(rules, q, slots, rules.maxBytes, partial || slots < |q|);
      if rules.bundling && |q| > 1 && rules.alloc(k) && gots != []
      then Gots(t.fetches) == gots && t.rest == q[|gots|..] && |t.fetches| == 1
      else Gots(t.fetches) == [Got(q[0], |q| > 1, false)] && t.rest == q[1..] && t.fetches != []
  {
    var gots := Collect(rules, q, Slots(rules, q), rules.maxBytes, partial || Slots(rules, q) < |q|);
    OneScatter(gots);
    OneSingle(Got(q[0], |q| > 1, false));
  }

  lemma OneScatter(gots: seq<Got>)
    ensures Gots([Scatter(gots)]) == gots
  {
    assert [Scatter(gots)][1..] == [];
  }

  lemma OneSingle(got: Got)
    ensures Gots([Single(got)]) == [got] && Gots([] + [Single(got)]) == [got]
    ensures Gots([Scatter([])] + [Single(got)]) == [got]
  {
    assert [Single(got)][1..] == [] && [] + [Single(got)] == [Single(got)];
    assert ([Scatter([])] + [Single(got)])[1..] == [Single(got)];
  }

  lemma OneGot(got: Got)
    ensures Packets([got]) == [got.packet]
  {
    assert [got][1..] == [];
    assert Packets([got]) == [got.packet] + Packets([]);
  }

  lemma TurnOrder(rules: RecvRules, q: seq<RxPacket>, partial: bool, k: nat)
    requires q != []
    ensures var t := TurnOf(rules, q, partial, k); Packets(Gots(t.fetches)) + t.rest == q
  {
    TurnGots(rules, q, partial, k);
    CollectIsPrefix(rules, q, Slots(rules, q), rules.maxBytes, partial || Slots(rules, q) < |q|);
    OneGot(Got(q[0], |q| > 1, false));
    assert [q[0]] + q[1..] == q;
  }

  ghost predicate Marked(rules: RecvRules, g: seq<Got>, whole: bool) {
    && g != []
    && (forall i :: 0 <= i < |g| - 1 ==> g[i].ignore)
    && (g[|g| - 1].ignore <==> g[|g| - 1].inBundle && !whole)
    && (!rules.bundling ==> forall i :: 0 <= i < |g| ==> !g[i].inBundle)
  }

  /** The marks of what one pass fetches. */
  lemma TurnMarks(rules: RecvRules, q: seq<RxPacket>, partial: bool, k: nat)
    requires q != []
    ensures var t := TurnOf(rules, q, partial, k);
      var g := Gots(t.fetches);
      && (t.rest != [] ==> forall i :: 0 <= i < |g| ==> g[i].ignore)
      && (t.rest != [] && rules.bundling ==> t.partial)
      && (!rules.bundling ==> forall i :: 0 <= i < |g| ==> !g[i].inBundle)
      && (t.rest == [] ==> Marked(rules, g, !partial && |t.fetches| == 1))
      && t.fetches != []
  {
    TurnGots(rules, q, partial, k);
    var slots := Slots(rules, q);
    var gots := Collect(rules, q, slots, rules.maxBytes, partial || slots < |q|);
    CollectMarks(rules, q, slots, rules.maxBytes, partial || slots < |q|);
    if rules.bundling && |q| > 1 && rules.alloc(k) && gots != [] {
      assert |gots| < |q| ==> forall i :: 0 <= i < |gots| ==> gots[i].ignore;
    } else {
      assert Gots(TurnOf(rules, q, partial, k).fetches)[0] == Got(q[0], |q| > 1, false);
    }
  }

  /** For any queue, limits, paddings and refusals: every packet is fetched exactly once and
      in order. */
  lemma {:induction false} FetchedOnceInOrder(rules: RecvRules, q: seq<RxPacket>, partial: bool, k: nat)
    ensures Packets(Gots(FetchAll(rules, q, partial, k))) == q
    decreases |q|
  {
    if q != [] {
      var t := TurnOf(rules, q, partial, k);
      var more := FetchAll(rules, t.rest, t.partial, t.attempts);
      TurnOrder(rules, q, partial, k);
      FetchedOnceInOrder(rules, t.rest, t.partial, t.attempts);
      GotsConcat(t.fetches, more);
      PacketsConcat(Gots(t.fetches), Gots(more));
    }
  }

  lemma MarkedConcat(rules: RecvRules, a: seq<Got>, b: seq<Got>, whole: bool)
    requires Marked(rules, b, whole) && (rules.bundling ==> !whole)
    requires forall i :: 0 <= i < |a| ==> a[i].ignore
    requires !rules.bundling ==> forall i :: 0 <= i < |a| ==> !a[i].inBundle
    ensures Marked(rules, a + b, false)
  {
    var g := a + b;
    assert g[|g| - 1] == b[|b| - 1];
    forall i | 0 <= i < |g| - 1
      ensures g[i].ignore
    {
      if |a| <= i { assert g[i] == b[i - |a|]; }
    }
  }

  /** Look-aheads are ignored in every packet of the batch but the last. The last one keeps
      its look-ahead exactly when it was fetched by itself or the whole batch travelled in
      one scatter request. */
  lemma {:induction false} OnlyTheLastMayAnnounce(rules: RecvRules, q: seq<RxPacket>, partial: bool, k: nat)
    requires q != []
    ensures var f := FetchAll(rules, q, partial, k); Marked(rules, Gots(f), !partial && |f| == 1)
    decreases |q|
  {
    var t := TurnOf(rules, q, partial, k);
    TurnMarks(rules, q, partial, k);
    var more := FetchAll(rules, t.rest, t.partial, t.attempts);
    GotsConcat(t.fetches, more);
    if t.rest == [] {
      assert t.fetches + more == t.fetches;
    } else {
      OnlyTheLastMayAnnounce(rules, t.rest, t.partial, t.attempts);
      MarkedConcat(rules, Gots(t.fetches), Gots(more), !t.partial && |more| == 1);
      FetchesSomething(rules, t.rest, t.partial, t.attempts);
    }
  }

  lemma FetchesSomething(rules: RecvRules, q: seq<RxPacket>, partial: bool, k: nat)
    requires q != []
    ensures FetchAll(rules, q, partial, k) != []
  {
    TurnMarks(rules, q, partial, k);
  }

  // --- when a batch travels whole --------------------------------------------------------------

  /** The padded bytes of a batch. */
  function Padded(rules: RecvRules, q: seq<RxPacket>): nat
  {
    if q == [] then 0 else rules.pad(q[0].actualLength) + Padded(rules, q[1..])
  }

  lemma {:induction false} CollectsAllIff(rules: RecvRules, q: seq<RxPacket>, slots: nat, space: nat, partial: bool)
    ensures |Collect(rules, q, slots, space, partial)| == |q| <==> |q| <= slots && Padded(rules, q) <= space
  {
    if q != [] && slots != 0 && rules.pad(q[0].actualLength) <= space {
      CollectsAllIff(rules, q[1..], slots - 1, space - rules.pad(q[0].actualLength), partial);
    }
  }

  /** A single message, or a batch for which a scatter list is granted that has room for it. */
  predicate TravelsWhole(rules: RecvRules, q: seq<RxPacket>, k: nat) {
    |q| == 1 || (rules.bundling && rules.alloc(k) && |q| <= rules.maxPerBundle && Padded(rules, q) <= rules.maxBytes)
  }

  /** One request fetches the batch exactly when it travels whole. */
  lemma WholeIff(rules: RecvRules, q: seq<RxPacket>, partial: bool, k: nat)
    requires q != []
    ensures |FetchAll(rules, q, partial, k)| == 1 <==> TravelsWhole(rules, q, k)
  {
    var t := TurnOf(rules, q, partial, k);
    var slots := Slots(rules, q);
    TurnGots(rules, q, partial, k);
    CollectsAllIff(rules, q, slots, rules.maxBytes, partial || slots < |q|);
    if t.rest != [] { FetchesSomething(rules, t.rest, t.partial, t.attempts); }
  }

  /** How many messages in front fit so many slots and so much space. */
  function Fitting(rules: RecvRules, q: seq<RxPacket>, slots: nat, space: nat): (n: nat)
    ensures n <= |q|
  {
    if slots == 0 || q == [] || space < rules.pad(q[0].actualLength) then 0
    else 1 + Fitting(rules, q[1..], slots - 1, space - rules.pad(q[0].actualLength))
  }

  lemma {:induction false} CollectsFitting(rules: RecvRules, q: seq<RxPacket>, slots: nat, space: nat, partial: bool)
    ensures |Collect(rules, q, slots, space, partial)| == Fitting(rules, q, slots, space)
    ensures forall g :: g in Collect(rules, q, slots, space, partial) ==> g.inBundle
  {
    if q != [] && slots != 0 && rules.pad(q[0].actualLength) <= space {
      CollectsFitting(rules, q[1..], slots - 1, space - rules.pad(q[0].actualLength), partial);
    }
  }

  /** The messages a scatter list takes from the front, if one is granted. */
  function Bundled(rules: RecvRules, q: seq<RxPacket>, k: nat): (n: nat)
    ensures n <= |q|
  {
    if rules.alloc(k) then Fitting(rules, q, Slots(rules, q), rules.maxBytes) else 0
  }

  /** The last message of a batch is fetched by itself: bundling is off, or the bundles, and the
      messages that cannot be bundled, leave it behind. */
  predicate EndsAlone(rules: RecvRules, q: seq<RxPacket>, k: nat)
    requires q != []
    decreases |q|
  {
    || !rules.bundling || |q| == 1
    || (var n := Bundled(rules, q, k);
        n < |q| && EndsAlone(rules, q[if n == 0 then 1 else n..], k + 1))
  }

  /** Without bundling every message is fetched by itself. */
  lemma {:induction false} SinglesAreAlone(rules: RecvRules, q: seq<RxPacket>, partial: bool, k: nat)
    requires !rules.bundling
    ensures forall g :: g in Gots(FetchAll(rules, q, partial, k)) ==> !g.inBundle
    decreases |q|
  {
    if q != [] {
      var t := TurnOf(rules, q, partial, k);
      SinglesAreAlone(rules, t.rest, t.partial, t.attempts);
      GotsConcat(t.fetches, FetchAll(rules, t.rest, t.partial, t.attempts));
    }
  }

  /** One pass over more messages than one. */
  lemma TurnTakes(rules: RecvRules, q: seq<RxPacket>, partial: bool, k: nat)
    requires rules.bundling && |q| > 1
    ensures var t, n := TurnOf(rules, q, partial, k), Bundled(rules, q, k);
      && t.rest == q[if n == 0 then 1 else n..] && t.attempts == k + 1
      && Gots(t.fetches) != [] && Gots(t.fetches)[|Gots(t.fetches)| - 1].inBundle == (n != 0)
  {
    var gots := Collect(rules, q, Slots(rules, q), rules.maxBytes, partial || Slots(rules, q) < |q|);
    TurnGots(rules, q, partial, k);
    CollectsFitting(rules, q, Slots(rules, q), rules.maxBytes, partial || Slots(rules, q) < |q|);
    if gots != [] { assert gots[|gots| - 1] in gots; }
  }

  /** Whether the last message was fetched by itself. */
  predicate LastIsAlone(g: seq<Got>) {
    g != [] && !g[|g| - 1].inBundle
  }

  /** The last pass decides. */
  lemma LastOf(a: seq<Got>, b: seq<Got>)
    ensures b != [] ==> (LastIsAlone(a + b) <==> LastIsAlone(b))
    ensures b == [] ==> a + b == a
  {
    if b != [] { assert (a + b)[|a + b| - 1] == b[|b| - 1]; }
  }

  lemma EndsAloneStep(rules: RecvRules, q: seq<RxPacket>, partial: bool, k: nat)
    requires q != [] && rules.bundling
    ensures var t := TurnOf(rules, q, partial, k);
      EndsAlone(rules, q, k) <==>
        if t.rest == [] then LastIsAlone(Gots(t.fetches)) else EndsAlone(rules, t.rest, t.attempts)
  {
    if |q| == 1 {
      TurnGots(rules, q, partial, k);
    } else {
      TurnTakes(rules, q, partial, k);
    }
  }

  lemma {:induction false} LastAloneIff(rules: RecvRules, q: seq<RxPacket>, partial: bool, k: nat)
    requires q != [] && rules.bundling
    ensures LastIsAlone(Gots(FetchAll(rules, q, partial, k))) <==> EndsAlone(rules, q, k)
    decreases |q|
  {
    var t := TurnOf(rules, q, partial, k);
    var more := FetchAll(rules, t.rest, t.partial, t.attempts);
    EndsAloneStep(rules, q, partial, k);
    GotsConcat(t.fetches, more);
    LastOf(Gots(t.fetches), Gots(more));
    if t.rest != [] {
      SomethingIsGot(rules, t.rest, t.partial, t.attempts);
      LastAloneIff(rules, t.rest, t.partial, t.attempts);
    }
  }

  lemma SomethingIsGot(rules: RecvRules, q: seq<RxPacket>, partial: bool, k: nat)
    requires q != []
    ensures Gots(FetchAll(rules, q, partial, k)) != []
  {
    var t := TurnOf(rules, q, partial, k);
    TurnGots(rules, q, partial, k);
    GotsConcat(t.fetches, FetchAll(rules, t.rest, t.partial, t.attempts));
  }

  /** The last message of a batch may announce more exactly when it is fetched by itself or the
      batch travels whole; no other message may. */
  lemma LastAnnouncesIff(rules: RecvRules, q: seq<RxPacket>, k: nat)
    requires q != []
    ensures var g := Gots(FetchAll(rules, q, false, k));
      && g != [] && (forall i :: 0 <= i < |g| - 1 ==> g[i].ignore)
      && (!g[|g| - 1].ignore <==> EndsAlone(rules, q, k) || TravelsWhole(rules, q, k))
  {
    OnlyTheLastMayAnnounce(rules, q, false, k);
    WholeIff(rules, q, false, k);
    SomethingIsGot(rules, q, false, k);
    if rules.bundling {
      LastAloneIff(rules, q, false, k);
    } else {
      SinglesAreAlone(rules, q, false, k);
    }
  }

  /** Four messages where two fit a request: both requests are fetched, and no message may
      announce another. */
  lemma AllIgnored(rules: RecvRules, a: RxPacket, b: RxPacket, c: RxPacket, d: RxPacket)
    requires rules.bundling && rules.maxPerBundle == 2 && rules.alloc(0) && rules.alloc(1)
    requires Padded(rules, [a, b]) <= rules.maxBytes && Padded(rules, [c, d]) <= rules.maxBytes
    ensures FetchAll(rules, [a, b, c, d], false, 0)
         == [Scatter([Got(a, true, true), Got(b, true, true)]), Scatter([Got(c, true, true), Got(d, true, true)])]
  {
    var q := [a, b, c, d];
    CollectPair(rules, a, b, [c, d]);
    CollectPair(rules, c, d, []);
    assert q == [a, b] + [c, d] && [c, d] == [c, d] + [] && q[2..] == [c, d] && [c, d][2..] == [];
    assert TurnOf(rules, [c, d], true, 1) == Turn([Scatter([Got(c, true, true), Got(d, true, true)])], [], true, 2);
    assert FetchAll(rules, [], true, 2) == [];
    assert FetchAll(rules, [c, d], true, 1) == [Scatter([Got(c, true, true), Got(d, true, true)])];
    assert TurnOf(rules, q, false, 0) == Turn([Scatter([Got(a, true, true), Got(b, true, true)])], [c, d], true, 1);
  }

  lemma CollectPair(rules: RecvRules, a: RxPacket, b: RxPacket, rest: seq<RxPacket>)
    requires Padded(rules, [a, b]) <= rules.maxBytes
    ensures Collect(rules, [a, b] + rest, 2, rules.maxBytes, true) == [Got(a, true, true), Got(b, true, true)]
  {
    assert [a, b][1..] == [b] && [b][1..] == [];
    assert Padded(rules, [a, b]) == rules.pad(a.actualLength) + Padded(rules, [b]);
    assert Padded(rules, [b]) == rules.pad(b.actualLength) + Padded(rules, []);
    var left := rules.maxBytes - rules.pad(a.actualLength);
    assert ([a, b] + rest)[1..] == [b] + rest;
    assert Collect(rules, [b] + rest, 1, left, true)
        == [Got(b, true, true)] + Collect(rules, ([b] + rest)[1..], 0, left - rules.pad(b.actualLength), true);
  }

  predicate FetchOk(rules: RecvRules, f: Fetch) {
    f.Scatter? ==> |f.gots| <= rules.maxPerBundle && Bytes(rules, f.gots) <= rules.maxBytes
  }

  /** Every scatter request is within the limits of the device. */
  lemma {:induction false} FetchesFit(rules: RecvRules, q: seq<RxPacket>, partial: bool, k: nat)
    ensures forall f :: f in FetchAll(rules, q, partial, k) ==> FetchOk(rules, f)
    decreases |q|
  {
    if q != [] {
      var t := TurnOf(rules, q, partial, k);
      CollectIsLongest(rules, q, Slots(rules, q), rules.maxBytes, partial || Slots(rules, q) < |q|);
      FetchesFit(rules, t.rest, t.partial, t.attempts);
    }
  }

  /** A scatter request without entries is submitted exactly when a list is granted and its
      limits leave no room for the first packet. */
  lemma EmptyRequestIff(rules: RecvRules, q: seq<RxPacket>, partial: bool, k: nat)
    requires q != []
    ensures Scatter([]) in TurnOf(rules, q, partial, k).fetches
       <==> (rules.bundling && |q| > 1 && rules.alloc(k)
         && (rules.maxPerBundle == 0 || rules.maxBytes < rules.pad(q[0].actualLength)))
  {
    var gots := Collect(rules, q, Slots(rules, q), rules.maxBytes, partial || Slots(rules, q) < |q|);
    assert gots == [] <==> (Slots(rules, q) == 0 || rules.maxBytes < rules.pad(q[0].actualLength));
    var t := TurnOf(rules, q, partial, k);
    if gots == [] && rules.bundling && |q| > 1 && rules.alloc(k) {
      assert t.fetches[0] == Scatter([]);
    }
  }

  // --- in place -------------------------------------------------------------------------------

  /** The batch a receiver is fetching, and the requests it has submitted. */
  class Receiver {
    const rules: RecvRules
    var RecvPktQueue: seq<RxPacket>
    var Attempts: nat
    var Submitted: seq<Fetch>

    /** Fills a scatter list from the queue; a packet that does not fit goes back. */
    method FillRequest(pktsToScatter: nat, PartialBundle: bool) returns (scatterList: seq<Got>)
      requires pktsToScatter <= |RecvPktQueue|
      modifies this`RecvPktQueue
      ensures scatterList == Collect(rules, old(RecvPktQueue), pktsToScatter, rules.maxBytes, PartialBundle)
      ensures RecvPktQueue == old(RecvPktQueue)[|scatterList|..]
    {
      scatterList := [];
      var scatterSpaceRemaining: int, i := rules.maxBytes, 0;
      while i < pktsToScatter
        invariant i == |scatterList| <= pktsToScatter <= |old(RecvPktQueue)| && 0 <= scatterSpaceRemaining
        invariant RecvPktQueue == old(RecvPktQueue)[i..]
        invariant scatterList + Collect(rules, RecvPktQueue, pktsToScatter - i, scatterSpaceRemaining, PartialBundle)
               == Collect(rules, old(RecvPktQueue), pktsToScatter, rules.maxBytes, PartialBundle)
      {
        var pPacket := RecvPktQueue[0];
        RecvPktQueue := RecvPktQueue[1..];
        var paddedLength := rules.pad(pPacket.actualLength);
        if scatterSpaceRemaining - paddedLength < 0 {
          RecvPktQueue := [pPacket] + RecvPktQueue;
          break;
        }
        scatterSpaceRemaining := scatterSpaceRemaining - paddedLength;
        var got := Got(pPacket, PartialBundle || i < pktsToScatter - 1, true);
        Regroup(scatterList, [got],
          Collect(rules, RecvPktQueue, pktsToScatter - i - 1, scatterSpaceRemaining, PartialBundle));
        scatterList := scatterList + [got];
        i := i + 1;
      }
    }

    method IssueRecvPacketBundle(PartialBundle: bool) returns (fetched: nat)
      modifies this
      ensures var b := BundleTurn(rules, old(RecvPktQueue), PartialBundle, old(Attempts));
        RecvPktQueue == b.rest && Submitted == old(Submitted) + b.fetches && Attempts == b.attempts
      ensures fetched == |old(RecvPktQueue)| - |RecvPktQueue|
    {
      var pktsToScatter := Slots(rules, RecvPktQueue);
      var partial := PartialBundle || |RecvPktQueue| - pktsToScatter > 0;
      var granted := rules.alloc(Attempts);
      Attempts := Attempts + 1;
      if !granted {
        return 0;
      }
      var scatterList := FillRequest(pktsToScatter, partial);
      Submitted := Submitted + [Scatter(scatterList)];
      fetched := |scatterList|;
    }

    /** One pass of the loop that fetches the batch. */
    method FetchOne(partialBundle: bool) returns (broken: bool)
      requires RecvPktQueue != []
      modifies this
      ensures var t := TurnOf(rules, old(RecvPktQueue), partialBundle, old(Attempts));
        RecvPktQueue == t.rest && Submitted == old(Submitted) + t.fetches && Attempts == t.attempts
          && broken == t.partial
    {
      var pktsFetched := 0;
      broken := partialBundle;
      if rules.bundling && |RecvPktQueue| > 1 {
        pktsFetched := IssueRecvPacketBundle(partialBundle);
        if |RecvPktQueue| != 0 {
          broken := true;
        }
      }
      if pktsFetched == 0 {
        var pPacket := RecvPktQueue[0];
        RecvPktQueue := RecvPktQueue[1..];
        Submitted := Submitted + [Single(Got(pPacket, |RecvPktQueue| > 0, false))];
      }
    }

    /** The whole batch, submissions succeeding. */
    method FetchBatch()
      modifies this
      ensures RecvPktQueue == []
      ensures Submitted == old(Submitted) + FetchAll(rules, old(RecvPktQueue), false, old(Attempts))
    {
      var partialBundle := false;
      ghost var all := Submitted + FetchAll(rules, RecvPktQueue, false, Attempts);
      while RecvPktQueue != []
        invariant Submitted + FetchAll(rules, RecvPktQueue, partialBundle, Attempts) == all
        decreases |RecvPktQueue|
      {
        ghost var t := TurnOf(rules, RecvPktQueue, partialBundle, Attempts);
        Regroup(Submitted, t.fetches, FetchAll(rules, t.rest, t.partial, t.attempts));
        partialBundle := FetchOne(partialBundle);
      }
    }
  }
}
