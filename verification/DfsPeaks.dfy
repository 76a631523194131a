/** Spotting neighbouring traffic among radar reports: a histogram of pulse widths and the three
    most frequent widths that match a packet signature, kept up to date event by event. */
module DfsPeaks {

  const MAX_ACK_RADAR_DUR: nat := 511
  const RSSI_THRESH_STRONG_PKTS: nat := 17
  const RSSI_DOUBLE_THRESHOLD: nat := 15
  const MAX_NUM_PEAKS: nat := 3
  const REGION_WIDTH: nat := 128
  const PKT_COUNT_THRESH: nat := 20
  const ACK_DETECT_PAR_THRESH: nat := 20

  /** Widths that match the signature of an acknowledgement, region by region; 3 stands for
      the long ones. */
  const REGIONS: seq<(nat, nat)> := [(33, 38), (39, 44), (53, 58), (126, 140), (141, 160), (189, 210), (360, 380),
      (257, 270), (295, 302), (3, 3)]

  predicate Within(w: nat, regions: seq<(nat, nat)>) {
    regions != [] && (regions[0].0 <= w <= regions[0].1 || Within(w, regions[1..]))
  }

  /** The widths that are signatures. What follows holds for any such set. */
  const SIGNATURES: set<nat> := set w: nat | 0 < w < MAX_ACK_RADAR_DUR && Within(w, REGIONS)

  // --- the width an event counts for ------------------------------------------------------------

  datatype Width = Width(width: nat, prevwidth: nat)

  /** A pulse of the maximum width may be continued by the next ones. */
  function Aggregated(prevwidth: nat, width: nat): Width
  {
    if prevwidth == 255 then Width(if width == 255 then 255 else prevwidth + width, prevwidth + width)
    else if width == 255 && (prevwidth == 510 || prevwidth == 765 || prevwidth == 1020)
      then Width(width, prevwidth + width)
    else if prevwidth == 1275 && width != 255 then Width(width + prevwidth, 0)
    else if prevwidth > 255 then Width(255, width)
    else Width(width, width)
  }

  /** The last of a run of pulses from a clean start. */
  function Following(durs: seq<nat>): Width
  {
    if durs == [] then Width(0, 0)
    else Aggregated(Following(durs[..|durs| - 1]).prevwidth, durs[|durs| - 1])
  }

  /** Durations are bytes. */
  ghost predicate AreDurations(durs: seq<nat>) {
    forall i :: 0 <= i < |durs| ==> durs[i] <= 255
  }

  /** How many pulses of the maximum width come last. After one of them, or six, or eleven, and so
      on, pulses of no width at all make no difference. */
  function MaxTail(durs: seq<nat>): nat
  {
    if durs == [] then 0
    else
      var k, last := MaxTail(durs[..|durs| - 1]), durs[|durs| - 1];
      if last == 255 then k + 1 else if last == 0 && k % 5 == 1 then k else 0
  }

  /** The last pulse was added to one of the maximum width. */
  predicate EndsOne(durs: seq<nat>) {
    durs != [] && durs[|durs| - 1] != 255 && durs[|durs| - 1] != 0 && MaxTail(durs[..|durs| - 1]) % 5 == 1
  }

  lemma MaxTailGrows(durs: seq<nat>, w: nat)
    ensures MaxTail(durs + [w]) == if w == 255 then MaxTail(durs) + 1
                                   else if w == 0 && MaxTail(durs) % 5 == 1 then MaxTail(durs) else 0
    ensures EndsOne(durs + [w]) <==> w != 255 && w != 0 && MaxTail(durs) % 5 == 1
  {
    assert (durs + [w])[..|durs|] == durs;
  }

  /** What is remembered of `k` pulses of the maximum width. */
  function Phase(k: nat): nat
  {
    if k % 5 == 0 then 1275 else 255 * (k % 5)
  }

  lemma PhaseIs(k: nat)
    ensures k % 5 == 0 ==> Phase(k) == 1275
    ensures k % 5 == 1 ==> Phase(k) == 255
    ensures k % 5 != 0 && k % 5 != 1 ==> Phase(k) == 510 || Phase(k) == 765 || Phase(k) == 1020
    ensures Phase(k + 1) == if k % 5 == 0 then 255 else Phase(k) + 255
  {
  }

  /** What is remembered of a run. */
  ghost predicate Remembers(prev: nat, durs: seq<nat>) {
    if MaxTail(durs) > 0 then prev == Phase(MaxTail(durs))
    else if EndsOne(durs) then 255 < prev < 510
    else prev < 255
  }

  lemma RemembersOn(prev: nat, durs: seq<nat>, w: nat)
    requires Remembers(prev, durs) && w <= 255
    ensures Remembers(Aggregated(prev, w).prevwidth, durs + [w])
  {
    MaxTailGrows(durs, w);
    PhaseIs(MaxTail(durs));
  }

  lemma {:induction false} Remembered(durs: seq<nat>)
    requires AreDurations(durs)
    ensures Remembers(Following(durs).prevwidth, durs)
  {
    if durs != [] {
      var init := durs[..|durs| - 1];
      Remembered(init);
      RemembersOn(Following(init).prevwidth, init, durs[|durs| - 1]);
      assert init + [durs[|durs| - 1]] == durs;
    }
  }

  /** The width of one more pulse after any run. A pulse of the maximum width counts for itself. A
      shorter one is added to one such pulse, or to five, that came right before it, counts for a
      maximum one after two, three or four of them, and for itself otherwise, unless the pulse
      before it was added to one. */
  lemma WidthIs(durs: seq<nat>, w: nat)
    requires AreDurations(durs) && w <= 255
    ensures var k := MaxTail(durs);
      Following(durs + [w]).width ==
        if w == 255 then 255
        else if k == 0 then if EndsOne(durs) then 255 else w
        else if k % 5 == 1 then 255 + w
        else if k % 5 == 0 then 1275 + w
        else 255
  {
    Remembered(durs);
    PhaseIs(MaxTail(durs));
    assert (durs + [w])[..|durs|] == durs;
  }

  function Maxima(k: nat): (durs: seq<nat>)
    ensures |durs| == k && forall i :: 0 <= i < k ==> durs[i] == 255
  {
    seq(k, i => 255)
  }

  lemma {:induction false} MaximaAreTail(k: nat)
    ensures MaxTail(Maxima(k)) == k
  {
    if k > 0 {
      MaximaAreTail(k - 1);
      MaxTailGrows(Maxima(k - 1), 255);
      assert Maxima(k) == Maxima(k - 1) + [255];
    }
  }

  /** From a clean start: one, or five, pulses of the maximum width are added to a shorter one that
      follows, two to four of them hide it. */
  lemma MaximaThenShort(k: nat, w: nat)
    requires 1 <= k && w < 255
    ensures k == 1 || k == 5 ==> Following(Maxima(k) + [w]).width == 255 * k + w
    ensures 2 <= k <= 4 ==> Following(Maxima(k) + [w]).width == 255
  {
    MaximaAreTail(k);
    WidthIs(Maxima(k), w);
  }

  /** A short pulse that comes second after one of the maximum width counts for a maximum one, though
      none precedes it. */
  lemma ShortCountsAsLong(w: nat, next: nat)
    requires 0 < w < 255 && next <= 255
    ensures Following(Maxima(1) + [w] + [next]).width == 255
  {
    MaximaAreTail(1);
    MaxTailGrows(Maxima(1), w);
    WidthIs(Maxima(1) + [w], next);
  }

  /** Some widths only count when the time since the last event agrees. */
  function Checked(width: nat, ts: nat, prevts: nat): nat
  {
    if 257 <= width <= 278 || 295 <= width <= 325 || 1280 <= width <= 1300 then
      var base := if width >= 1280 then 1275 else 255;
      var adj := if ts < prevts then 32768 else 0;
      if ts + adj - prevts != width - base then 1 else width
    else width
  }

  /** A sum of maximum widths and `w` that falls in certain ranges counts only when `w` ticks passed
      since the last event that counted; otherwise the event is thrown away. Other widths count as
      they are. */
  lemma SumIsChecked(maxima: nat, w: nat, ts: nat, prevts: nat)
    requires (maxima == 255 && w < 255) || (maxima == 1275 && w < 255)
    ensures var suspect := if maxima == 255 then 2 <= w <= 23 || 40 <= w <= 70 else 5 <= w <= 25;
      var elapsed := if prevts <= ts then ts - prevts else ts + 32768 - prevts;
      Checked(maxima + w, ts, prevts) == if suspect && elapsed != w then 1 else maxima + w
  {
  }

  /** Below those ranges nothing is checked. */
  lemma ShortIsUnchecked(w: nat, ts: nat, prevts: nat)
    requires w <= 255
    ensures Checked(w, ts, prevts) == w
  {
  }

  /** Time stamps are cut to 16 bits here, but a roll-over is taken for one of 15: across it no such
      sum is ever found right. */
  lemma RollOverIsMissed(maxima: nat, w: nat, prevts: nat)
    requires prevts < 0x1_0000 <= prevts + w
    requires (maxima == 255 && (2 <= w <= 23 || 40 <= w <= 70)) || (maxima == 1275 && 5 <= w <= 25)
    ensures Checked(maxima + w, (prevts + w) % 0x1_0000, prevts) == 1
  {
  }

  predicate Long(width: nat) {
    1280 <= width <= 1300 || 318 <= width <= 325
  }

  /** The bin an event of a checked width counts for, 0 if none, and by how much. */
  function Bin(width: nat, rssi: nat): (r: nat)
    ensures r < MAX_ACK_RADAR_DUR
  {
    if width <= 10 then 0
    else if width == 255 && rssi > RSSI_THRESH_STRONG_PKTS then 2
    else if Long(width) then 3
    else if width <= 510 then width
    else 0
  }

  /** Nothing is thrown away from 11 to 510 and from 1280 to 1300; strong pulses of the maximum width
      have a bin of their own, and so have the long ones. */
  lemma BinIs(width: nat, rssi: nat)
    ensures Bin(width, rssi) == 0 <==> width < 11 || 510 < width < 1280 || 1300 < width
    ensures Bin(width, rssi) == 2 <==> width == 255 && 18 <= rssi
    ensures Bin(width, rssi) == 3 <==> 318 <= width <= 325 || 1280 <= width <= 1300
    ensures Bin(width, rssi) !in {0, 2, 3} ==> Bin(width, rssi) == width
    ensures Amount(width) == if 318 <= width <= 325 || 1280 <= width <= 1300 then 3 else 1
  {
  }

  lemma SignatureIff(w: nat)
    ensures w in SIGNATURES <==>
      || w == 3 || 33 <= w <= 44 || 53 <= w <= 58 || 126 <= w <= 160 || 189 <= w <= 210 || 257 <= w <= 270
      || 295 <= w <= 302 || 360 <= w <= 380
  {
    var r := REGIONS;
    assert r == [r[0], r[1], r[2], r[3], r[4], r[5], r[6], r[7], r[8], r[9]];
    FirstRegion(w, r);
    FirstRegion(w, r[1..]);
    FirstRegion(w, r[2..]);
    FirstRegion(w, r[3..]);
    FirstRegion(w, r[4..]);
    FirstRegion(w, r[5..]);
    FirstRegion(w, r[6..]);
    FirstRegion(w, r[7..]);
    FirstRegion(w, r[8..]);
    FirstRegion(w, r[9..]);
    assert r[10..] == [];
  }

  lemma FirstRegion(w: nat, regions: seq<(nat, nat)>)
    requires regions != []
    ensures Within(w, regions) <==> regions[0].0 <= w <= regions[0].1 || Within(w, regions[1..])
  {
  }

  /** Long ones count three times. */
  function Amount(width: nat): (r: nat)
    ensures r >= 1
  {
    if Long(width) then 3 else 1
  }

  /** A strong event in a signature's bin counts once more. */
  function Bonus(acks: set<nat>, bin: nat, rssi: nat): nat
  {
    if bin in acks && rssi > RSSI_DOUBLE_THRESHOLD then 1 else 0
  }

  lemma BonusIs(acks: set<nat>, bin: nat, rssi: nat)
    ensures Bonus(acks, bin, rssi) == if bin in acks && 16 <= rssi then 1 else 0
  {
  }

  // --- the three most frequent signatures ------------------------------------------------------------

  /** The macro, on values. */
  function Updated(h: seq<nat>, p: seq<nat>, w: nat): (r: seq<nat>)
    requires |h| == MAX_ACK_RADAR_DUR && |p| == 3 && w < MAX_ACK_RADAR_DUR
    requires p[0] < MAX_ACK_RADAR_DUR && p[1] < MAX_ACK_RADAR_DUR && p[2] < MAX_ACK_RADAR_DUR
    ensures |r| == 3
  {
    if h[p[0]] < h[w] then [w, p[0], if w != p[1] then p[1] else p[2]]
    else if w != p[0] && h[p[1]] < h[w] then [p[0], w, p[1]]
    else if w != p[1] && w != p[0] && h[p[2]] < h[w] then [p[0], p[1], w]
    else p
  }

  /** Entries in range, in order, and distinct unless zero. */
  ghost predicate Listed(acks: set<nat>, h: seq<nat>, p: seq<nat>) {
    && |h| == MAX_ACK_RADAR_DUR && |p| == 3 && h[0] == 0
    && p[0] < MAX_ACK_RADAR_DUR && p[1] < MAX_ACK_RADAR_DUR && p[2] < MAX_ACK_RADAR_DUR
    && h[p[0]] >= h[p[1]] >= h[p[2]]
    && (p[0] != 0 ==> p[0] in acks && h[p[0]] > 0 && p[0] != p[1] && p[0] != p[2])
    && (p[1] != 0 ==> p[1] in acks && h[p[1]] > 0 && p[1] != p[2])
    && (p[2] != 0 ==> p[2] in acks && h[p[2]] > 0)
  }

  /** No other signature is more frequent than the last entry. */
  ghost predicate OthersBelow(acks: set<nat>, h: seq<nat>, p: seq<nat>)
    requires |h| == MAX_ACK_RADAR_DUR && |p| == 3 && p[2] < |h|
  {
    forall w :: 0 < w < MAX_ACK_RADAR_DUR && w in acks && w != p[0] && w != p[1] && w != p[2] ==> h[w] <= h[p[2]]
  }

  ghost predicate TopThree(acks: set<nat>, h: seq<nat>, p: seq<nat>) {
    Listed(acks, h, p) && OthersBelow(acks, h, p)
  }

  lemma UpdateKeepsListed(acks: set<nat>, h: seq<nat>, p: seq<nat>, w: nat, n: nat)
    requires Listed(acks, h, p) && 0 < w < MAX_ACK_RADAR_DUR && w in acks && n > 0
    ensures Listed(acks, h[w := h[w] + n], Updated(h[w := h[w] + n], p, w))
  {
  }

  /** Counting one signature more often and updating keeps the list right. */
  lemma UpdateKeepsTopThree(acks: set<nat>, h: seq<nat>, p: seq<nat>, w: nat, n: nat)
    requires TopThree(acks, h, p) && 0 < w < MAX_ACK_RADAR_DUR && w in acks && n > 0
    ensures TopThree(acks, h[w := h[w] + n], Updated(h[w := h[w] + n], p, w))
  {
    var g := h[w := h[w] + n];
    var q := Updated(g, p, w);
    UpdateKeepsListed(acks, h, p, w, n);
    forall v | 0 < v < MAX_ACK_RADAR_DUR && v in acks && v != q[0] && v != q[1] && v != q[2]
      ensures g[v] <= g[q[2]]
    {
      if v != w {
        assert g[v] == h[v];
        if v != p[0] && v != p[1] && v != p[2] { assert h[v] <= h[p[2]]; }
      }
    }
  }

  /** Counting anything else leaves it right. */
  lemma OtherKeepsTopThree(acks: set<nat>, h: seq<nat>, p: seq<nat>, w: nat, n: nat)
    requires TopThree(acks, h, p) && 0 < w < MAX_ACK_RADAR_DUR && w !in acks
    ensures TopThree(acks, h[w := h[w] + n], p)
  {
  }

  // --- how often signatures came in all ------------------------------------------------------------

  /** The counts of the signatures below `n`. */
  function Sum(acks: set<nat>, h: seq<nat>, n: nat): nat
    requires n <= |h|
  {
    if n == 0 then 0 else Sum(acks, h, n - 1) + if n - 1 in acks then h[n - 1] else 0
  }

  lemma {:induction false} SumChanged(acks: set<nat>, h: seq<nat>, w: nat, k: nat, n: nat)
    requires w < |h| && n <= |h|
    ensures Sum(acks, h[w := k], n) + (if w < n && w in acks then h[w] else 0)
      == Sum(acks, h, n) + (if w < n && w in acks then k else 0)
  {
    if n > 0 { SumChanged(acks, h, w, k, n - 1); }
  }

  /** A listed width, or none, taken out of the sum. */
  lemma SumWithout(acks: set<nat>, h: seq<nat>, w: nat)
    requires w < |h| && (w in acks || h[w] == 0)
    ensures Sum(acks, h, |h|) == h[w] + Sum(acks, h[w := 0], |h|)
  {
    SumChanged(acks, h, w, 0, |h|);
  }

  /** The peaks are part of the sum, and all of it while fewer than three signatures came. */
  lemma PeaksInSum(acks: set<nat>, h: seq<nat>, p: seq<nat>)
    requires TopThree(acks, h, p)
    ensures h[p[0]] + h[p[1]] + h[p[2]] <= Sum(acks, h, |h|)
    ensures h[p[0]] + h[p[1]] + h[p[2]] == Sum(acks, h, |h|) || p[2] != 0
  {
    var h1 := h[p[0] := 0];
    var h2 := h1[p[1] := 0];
    var h3 := h2[p[2] := 0];
    SumWithout(acks, h, p[0]);
    SumWithout(acks, h1, p[1]);
    SumWithout(acks, h2, p[2]);
    if p[2] == 0 {
      forall w | 0 <= w < |h| && w in acks
        ensures h3[w] == 0
      {
        if w != 0 && w != p[0] && w != p[1] { assert h[w] <= h[p[2]]; }
      }
      SumZero(acks, h3, |h|);
    }
  }

  lemma {:induction false} SumZero(acks: set<nat>, h: seq<nat>, n: nat)
    requires n <= |h| && forall w :: 0 <= w < n && w in acks ==> h[w] == 0
    ensures Sum(acks, h, n) == 0
  {
    if n > 0 { SumZero(acks, h, n - 1); }
  }

  lemma ZeroIsTopThree(acks: set<nat>, h: seq<nat>, p: seq<nat>)
    requires |h| == MAX_ACK_RADAR_DUR && |p| == 3 && (forall w :: 0 <= w < |h| ==> h[w] == 0) && p == [0, 0, 0]
    ensures TopThree(acks, h, p) && Sum(acks, h, |h|) == 0
  {
    SumZero(acks, h, |h|);
  }

  // --- over any run of events ----------------------------------------------------------------

  /** An event after aggregation and checking. */
  datatype Event = Event(width: nat, rssi: nat)

  datatype Tally = Tally(histogram: seq<nat>, peaks: seq<nat>, acksum: nat) {
    predicate InRange() {
      && |histogram| == MAX_ACK_RADAR_DUR && |peaks| == 3
      && peaks[0] < MAX_ACK_RADAR_DUR && peaks[1] < MAX_ACK_RADAR_DUR && peaks[2] < MAX_ACK_RADAR_DUR
    }
  }

  /** Histogram and list after counting `n` for a bin. */
  function Bumped(acks: set<nat>, t: Tally, bin: nat, n: nat): (r: Tally)
    requires t.InRange() && bin < MAX_ACK_RADAR_DUR
    ensures r.InRange()
  {
    var h := t.histogram[bin := t.histogram[bin] + n];
    if bin in acks then Tally(h, Updated(h, t.peaks, bin), t.acksum + n) else Tally(h, t.peaks, t.acksum)
  }

  /** Histogram and list after one event. */
  function Counting(acks: set<nat>, t: Tally, e: Event): (r: Tally)
    requires t.InRange()
    ensures r.InRange()
  {
    var bin := Bin(e.width, e.rssi);
    if bin == 0 then t else Bumped(acks, t, bin, Amount(e.width) + Bonus(acks, bin, e.rssi))
  }

  /** Histogram and list after events from a clean start. */
  function After(acks: set<nat>, events: seq<Event>): (r: Tally)
    ensures r.InRange()
  {
    if events == [] then Tally(seq(MAX_ACK_RADAR_DUR, i => 0), [0, 0, 0], 0)
    else Counting(acks, After(acks, events[..|events| - 1]), events[|events| - 1])
  }

  /** What the events count for a width, from scratch. */
  function CountFor(acks: set<nat>, events: seq<Event>, w: nat): nat
  {
    if events == [] then 0
    else
      var e := events[|events| - 1];
      CountFor(acks, events[..|events| - 1], w)
        + (if Bin(e.width, e.rssi) == w then Amount(e.width) + Bonus(acks, w, e.rssi) else 0)
  }

  /** The list names the most frequent signatures, and the sum is that of all of them. */
  ghost predicate Right(acks: set<nat>, t: Tally) {
    TopThree(acks, t.histogram, t.peaks) && t.acksum == Sum(acks, t.histogram, |t.histogram|)
  }

  lemma RightIs(acks: set<nat>, t: Tally, h: seq<nat>, p: seq<nat>)
    requires t.histogram == h && t.peaks == p && TopThree(acks, h, p) && t.acksum == Sum(acks, h, |h|)
    ensures Right(acks, t)
  {
  }

  lemma BumpedSignature(acks: set<nat>, t: Tally, bin: nat, n: nat)
    requires Right(acks, t) && t.InRange() && 0 < bin < MAX_ACK_RADAR_DUR && n > 0 && bin in acks
    ensures Right(acks, Bumped(acks, t, bin, n))
  {
    var r := Bumped(acks, t, bin, n);
    UpdateKeepsTopThree(acks, t.histogram, t.peaks, bin, n);
    SumChanged(acks, t.histogram, bin, t.histogram[bin] + n, MAX_ACK_RADAR_DUR);
    RightIs(acks, r, t.histogram[bin := t.histogram[bin] + n], Updated(r.histogram, t.peaks, bin));
  }

  lemma BumpedOther(acks: set<nat>, t: Tally, bin: nat, n: nat)
    requires Right(acks, t) && t.InRange() && 0 < bin < MAX_ACK_RADAR_DUR && n > 0 && bin !in acks
    ensures Right(acks, Bumped(acks, t, bin, n))
  {
    OtherKeepsTopThree(acks, t.histogram, t.peaks, bin, n);
    SumChanged(acks, t.histogram, bin, t.histogram[bin] + n, MAX_ACK_RADAR_DUR);
    RightIs(acks, Bumped(acks, t, bin, n), t.histogram[bin := t.histogram[bin] + n], t.peaks);
  }

  lemma BumpedIsRight(acks: set<nat>, t: Tally, bin: nat, n: nat)
    requires Right(acks, t) && t.InRange() && 0 < bin < MAX_ACK_RADAR_DUR && n > 0
    ensures Right(acks, Bumped(acks, t, bin, n))
  {
    if bin in acks {
      BumpedSignature(acks, t, bin, n);
    } else {
      BumpedOther(acks, t, bin, n);
    }
  }

  lemma CountingIsRight(acks: set<nat>, t: Tally, e: Event)
    requires Right(acks, t) && t.InRange()
    ensures Right(acks, Counting(acks, t, e))
  {
    var bin := Bin(e.width, e.rssi);
    if bin == 0 {
      assert Counting(acks, t, e) == t;
    } else {
      var n := Amount(e.width) + Bonus(acks, bin, e.rssi);
      assert Counting(acks, t, e) == Bumped(acks, t, bin, n);
      BumpedIsRight(acks, t, bin, n);
    }
  }

  /** After any events from a clean start, the histogram counts every width as often as it
      came, and the list and the sum kept up event by event are right for it. */
  lemma {:induction false} IncrementalIsRight(acks: set<nat>, events: seq<Event>)
    ensures Right(acks, After(acks, events))
    ensures forall w :: 0 < w < MAX_ACK_RADAR_DUR ==> After(acks, events).histogram[w] == CountFor(acks, events, w)
  {
    if events == [] {
      ZeroIsTopThree(acks, After(acks, events).histogram, After(acks, events).peaks);
    } else {
      IncrementalIsRight(acks, events[..|events| - 1]);
      CountingIsRight(acks, After(acks, events[..|events| - 1]), events[|events| - 1]);
    }
  }

  /** Whether a count is among the listed ones or no larger than the smallest of them. */
  lemma Dominated(acks: set<nat>, h: seq<nat>, p: seq<nat>, w: nat)
    requires TopThree(acks, h, p) && 0 < w < MAX_ACK_RADAR_DUR && w in acks
    ensures w == p[0] || w == p[1] || w == p[2] || h[w] <= h[p[2]]
  {
    if w != p[0] && w != p[1] && w != p[2] { assert h[w] <= h[p[2]]; }
  }

  /** No three different signatures were counted more often together. */
  lemma TopThreeIsBest(acks: set<nat>, h: seq<nat>, p: seq<nat>, a: nat, b: nat, c: nat)
    requires TopThree(acks, h, p) && 0 < a < MAX_ACK_RADAR_DUR && 0 < b < MAX_ACK_RADAR_DUR && 0 < c < MAX_ACK_RADAR_DUR
    requires a in acks && b in acks && c in acks && a != b && b != c && a != c
    ensures h[a] + h[b] + h[c] <= h[p[0]] + h[p[1]] + h[p[2]]
  {
    Dominated(acks, h, p, a);
    Dominated(acks, h, p, b);
    Dominated(acks, h, p, c);
  }

  // --- the test for traffic ------------------------------------------------------------------------

  /** What lies behind the peak list, which the test reads as a fourth entry: the half-word there
      and, for one that is no width, the word it leads to. */
  datatype Behind = Behind(entry: nat, word: nat)

  datatype Totals = Totals(sumpeak: nat, numpeaks: int, acksum: nat)

  function Low32(x: int): (r: int)
    ensures 0 <= r < 0x1_0000_0000
  {
    x % 0x1_0000_0000
  }

  /** Products are cut to 32 bits. */
  lemma Low32Wraps(x: int)
    ensures Low32(x + 0x1_0000_0000) == Low32(x) && (0 <= x < 0x1_0000_0000 ==> Low32(x) == x)
  {
  }

  /** A top peak of long packets that strong pulses of the maximum width outnumber. */
  predicate Boosted(h: seq<nat>, top: nat) {
    |h| == MAX_ACK_RADAR_DUR && top == 3 && 6 < h[3] < h[2]
  }

  function CountAt(h: seq<nat>, w: nat, b: Behind): nat {
    if w < |h| then h[w] else b.word
  }

  /** One entry added to the totals. */
  function Scan(h: seq<nat>, w: nat, top: bool, b: Behind, r: Totals): Totals
  {
    if w == 0 then r.(numpeaks := r.numpeaks - 1)
    else if top && Boosted(h, w) then
      r.(sumpeak := r.sumpeak + (h[2] + h[3]), acksum := r.acksum + (h[2] + h[3]))
    else r.(sumpeak := r.sumpeak + CountAt(h, w, b))
  }

  /** The totals after the first `n` of the four entries. */
  function Scanned(t: Tally, b: Behind, sumpeak: nat, n: nat): (r: Totals)
    requires t.InRange() && n <= MAX_NUM_PEAKS + 1
  {
    if n == 0 then Totals(sumpeak, MAX_NUM_PEAKS, t.acksum)
    else
      var w := if n - 1 < MAX_NUM_PEAKS then t.peaks[n - 1] else b.entry;
      Scan(t.histogram, w, n == 1, b, Scanned(t, b, sumpeak, n - 1))
  }

  /** Whether the peaks stand out, in 32-bit arithmetic. */
  predicate StandOut(r: Totals) {
    && r.acksum > PKT_COUNT_THRESH
    && Low32(r.sumpeak * REGION_WIDTH) > Low32(ACK_DETECT_PAR_THRESH * r.numpeaks * r.acksum)
  }

  /** What the three peaks count for, with the boost. */
  function PeakSum(t: Tally): nat
    requires t.InRange()
  {
    var h, p := t.histogram, t.peaks;
    (if p[0] == 3 && 7 <= h[3] < h[2] then h[2] + h[3] else h[p[0]]) + h[p[1]] + h[p[2]]
  }

  function AckSum(t: Tally): nat
    requires t.InRange()
  {
    var h := t.histogram;
    t.acksum + if t.peaks[0] == 3 && 7 <= h[3] < h[2] then h[2] + h[3] else 0
  }

  function NonZero(w: nat): nat {
    if w == 0 then 0 else 1
  }

  /** What the peaks and the entry behind their list add to the sum. */
  function Shown(t: Tally, b: Behind, sumpeak: nat): nat
    requires t.InRange()
  {
    sumpeak + PeakSum(t) + if b.entry == 0 then 0 else CountAt(t.histogram, b.entry, b)
  }

  /** The entries in use, that one among them, less one. */
  function InUse(t: Tally, b: Behind): int
    requires t.InRange()
  {
    NonZero(t.peaks[0]) + NonZero(t.peaks[1]) + NonZero(t.peaks[2]) + NonZero(b.entry) - 1
  }

  /** The number of peaks is that of the entries in use less one, whatever lies behind the list. */
  lemma ScannedTotals(t: Tally, b: Behind, sumpeak: nat)
    requires t.InRange() && |t.histogram| > 0 && t.histogram[0] == 0
    ensures Scanned(t, b, sumpeak, MAX_NUM_PEAKS + 1) == Totals(Shown(t, b, sumpeak), InUse(t, b), AckSum(t))
  {
    var h, p := t.histogram, t.peaks;
    var r0 := Totals(sumpeak, MAX_NUM_PEAKS, t.acksum);
    var r1 := Scan(h, p[0], true, b, r0);
    var r2 := Scan(h, p[1], false, b, r1);
    assert Scanned(t, b, sumpeak, 0) == r0;
    assert Scanned(t, b, sumpeak, 1) == r1;
    assert Scanned(t, b, sumpeak, 2) == r2;
    assert Scanned(t, b, sumpeak, 3) == Scan(h, p[2], false, b, r2);
  }

  /** Short of wrapping around, the test compares shares. */
  lemma StandOutIff(r: Totals)
    requires 0 <= r.numpeaks <= 3 && r.sumpeak * 128 < 0x1_0000_0000 && r.acksum * 60 < 0x1_0000_0000
    ensures StandOut(r) <==> r.acksum > 20 && 32 * r.sumpeak > 5 * r.numpeaks * r.acksum
  {
    var left, right := r.sumpeak * REGION_WIDTH, ACK_DETECT_PAR_THRESH * r.numpeaks * r.acksum;
    assert right == if r.numpeaks == 0 then 0 else if r.numpeaks == 1 then 20 * r.acksum
                    else if r.numpeaks == 2 then 40 * r.acksum else 60 * r.acksum;
    assert Low32(left) == left && Low32(right) == right;
  }

  /** No top peak, no signatures. */
  lemma NoneCame(acks: set<nat>, t: Tally)
    requires t.InRange() && Right(acks, t)
    ensures t.peaks[0] == 0 ==> AckSum(t) == 0
  {
    PeaksInSum(acks, t.histogram, t.peaks);
  }

  /** Traffic is seen exactly when enough signatures came and the peaks, with the entry behind
      their list and what earlier events of the call left in the sum, make up more than five in
      32 of them for each entry in use but one. */
  lemma TrafficIff(acks: set<nat>, t: Tally, b: Behind, sumpeak: nat)
    requires t.InRange() && Right(acks, t)
    requires Shown(t, b, sumpeak) * REGION_WIDTH < 0x1_0000_0000 && AckSum(t) * 60 < 0x1_0000_0000
    ensures StandOut(Scanned(t, b, sumpeak, MAX_NUM_PEAKS + 1)) <==>
      AckSum(t) > PKT_COUNT_THRESH && 32 * Shown(t, b, sumpeak) > 5 * InUse(t, b) * AckSum(t)
  {
    ScannedTotals(t, b, sumpeak);
    if t.peaks[0] == 0 {
      NoneCame(acks, t);
    } else {
      StandOutIff(Scanned(t, b, sumpeak, MAX_NUM_PEAKS + 1));
    }
  }

  /** Two peaks are everything that came. */
  lemma FewSignatures(acks: set<nat>, t: Tally)
    requires t.InRange() && Right(acks, t) && t.peaks[0] != 0 && t.peaks[2] == 0
    ensures 0 < PeakSum(t) && AckSum(t) <= 2 * PeakSum(t)
  {
    PeaksInSum(acks, t.histogram, t.peaks);
  }

  lemma FewStandOut(shown: nat, n: int, sum: nat)
    requires 0 < shown && sum <= 2 * shown && n <= 2
    ensures 32 * shown > 5 * n * sum
  {
    assert (2 - n) * sum >= 0;
    assert 5 * n * sum == 5 * (n * sum);
  }

  /** With something behind the list: the peaks are counted right, and three of them are
      compared with fifteen in 32 of all signatures. */
  lemma EntryBehind(acks: set<nat>, t: Tally, b: Behind, sumpeak: nat)
    requires t.InRange() && Right(acks, t) && t.peaks[0] != 0 && b.entry != 0
    requires Shown(t, b, sumpeak) * REGION_WIDTH < 0x1_0000_0000 && AckSum(t) * 60 < 0x1_0000_0000
    ensures StandOut(Scanned(t, b, sumpeak, MAX_NUM_PEAKS + 1)) <==>
      && AckSum(t) > PKT_COUNT_THRESH
      && (t.peaks[2] == 0 || 32 * (sumpeak + PeakSum(t) + CountAt(t.histogram, b.entry, b)) > 15 * AckSum(t))
  {
    TrafficIff(acks, t, b, sumpeak);
    if t.peaks[2] == 0 {
      FewSignatures(acks, t);
      FewStandOut(Shown(t, b, sumpeak), InUse(t, b), AckSum(t));
    } else {
      assert InUse(t, b) == 2 + NonZero(b.entry);
    }
  }

  /** With nothing behind it one peak less is counted, and three are compared with five in 16. */
  lemma NothingBehind(acks: set<nat>, t: Tally, b: Behind, sumpeak: nat)
    requires t.InRange() && Right(acks, t) && t.peaks[0] != 0 && b.entry == 0
    requires Shown(t, b, sumpeak) * REGION_WIDTH < 0x1_0000_0000 && AckSum(t) * 60 < 0x1_0000_0000
    ensures StandOut(Scanned(t, b, sumpeak, MAX_NUM_PEAKS + 1)) <==>
      AckSum(t) > PKT_COUNT_THRESH && (t.peaks[2] == 0 || 16 * (sumpeak + PeakSum(t)) > 5 * AckSum(t))
  {
    TrafficIff(acks, t, b, sumpeak);
    if t.peaks[2] == 0 {
      FewSignatures(acks, t);
      FewStandOut(Shown(t, b, sumpeak), InUse(t, b), AckSum(t));
    } else {
      assert InUse(t, b) == 2 + NonZero(b.entry);
    }
  }

  // --- over any run of events and tests -------------------------------------------------------------

  /** An event, what lies behind the list when it is tested, and whether it starts a call. */
  datatype Input = Input(event: Event, behind: Behind, starts: bool)

  /** What an event leads to. */
  datatype Outcome = Outcome(tally: Tally, sumpeak: nat, traffic: bool)

  /** A signature is counted and the peaks are tested. When they stand out, everything starts
      over, but for the sum of the peaks. */
  function Judging(acks: set<nat>, before: Tally, e: Event, b: Behind, sumpeak: nat): (r: Outcome)
    requires before.InRange()
    ensures r.tally.InRange()
  {
    var t, bin := Counting(acks, before, e), Bin(e.width, e.rssi);
    if bin != 0 && bin in acks then
      var r := Scanned(t, b, sumpeak, MAX_NUM_PEAKS + 1);
      if StandOut(r) then Outcome(After(acks, []), r.sumpeak, true) else Outcome(t, r.sumpeak, false)
    else Outcome(t, sumpeak, false)
  }

  /** The peaks are tested after an event that counts for a signature, and after no other. */
  lemma TestedIff(acks: set<nat>, before: Tally, e: Event, b: Behind, sumpeak: nat)
    requires before.InRange()
    ensures var t, o := Counting(acks, before, e), Judging(acks, before, e, b, sumpeak);
      var bin := Bin(e.width, e.rssi);
      if bin == 0 || bin !in acks then o == Outcome(t, sumpeak, false)
      else var r := Scanned(t, b, sumpeak, 4);
        o.sumpeak == r.sumpeak && o.traffic == StandOut(r) && o.tally == if o.traffic then After(acks, []) else t
  {
  }

  /** The state after a run from a clean start. */
  function Ran(acks: set<nat>, inputs: seq<Input>): (r: Outcome)
    ensures r.tally.InRange()
  {
    if inputs == [] then Outcome(After(acks, []), 0, false)
    else
      var r, i := Ran(acks, inputs[..|inputs| - 1]), inputs[|inputs| - 1];
      Judging(acks, r.tally, i.event, i.behind, if i.starts then 0 else r.sumpeak)
  }

  /** The events since traffic was last detected. */
  function SinceTraffic(acks: set<nat>, inputs: seq<Input>): seq<Event>
  {
    if inputs == [] || Ran(acks, inputs).traffic then []
    else SinceTraffic(acks, inputs[..|inputs| - 1]) + [inputs[|inputs| - 1].event]
  }

  /** Over any run, detections among it: histogram, list and sum are those of the events since
      the last detection. */
  lemma {:induction false} RunIsRight(acks: set<nat>, inputs: seq<Input>)
    ensures var t, events := Ran(acks, inputs).tally, SinceTraffic(acks, inputs);
      && t == After(acks, events) && Right(acks, t)
      && forall w :: 0 < w < MAX_ACK_RADAR_DUR ==> t.histogram[w] == CountFor(acks, events, w)
  {
    var events := SinceTraffic(acks, inputs);
    if inputs != [] && !Ran(acks, inputs).traffic {
      RunIsRight(acks, inputs[..|inputs| - 1]);
      assert events[..|events| - 1] == SinceTraffic(acks, inputs[..|inputs| - 1]);
    }
    IncrementalIsRight(acks, events);
  }

  lemma RanOn(acks: set<nat>, inputs: seq<Input>, i: Input)
    ensures var r := Ran(acks, inputs);
      Ran(acks, inputs + [i]) == Judging(acks, r.tally, i.event, i.behind, if i.starts then 0 else r.sumpeak)
  {
    assert (inputs + [i])[..|inputs|] == inputs;
  }

  // --- the sum of the peaks runs on ---------------------------------------------------------------

  /** A number of radar types, which is what follows the list in memory, whose bin no event counts
      for. */
  predicate UnusedBin(w: nat) {
    w == 1 || 4 <= w <= 10
  }

  lemma {:induction false} UnusedBinIsEmpty(acks: set<nat>, events: seq<Event>, w: nat)
    requires UnusedBin(w)
    ensures After(acks, events).histogram[w] == 0
  {
    if events != [] { UnusedBinIsEmpty(acks, events[..|events| - 1], w); }
  }

  /** With such a number of types, over any run: traffic is seen exactly when enough signatures
      came since it was last seen and at most two different ones did or the peaks make up more
      than fifteen in 32 of them. */
  lemma TrafficOverRuns(acks: set<nat>, inputs: seq<Input>, e: Event, b: Behind)
    requires UnusedBin(b.entry) && Bin(e.width, e.rssi) in acks && Bin(e.width, e.rssi) != 0
    requires var t := Counting(acks, Ran(acks, inputs).tally, e);
      PeakSum(t) * REGION_WIDTH < 0x1_0000_0000 && AckSum(t) * 60 < 0x1_0000_0000
    ensures var t := Counting(acks, Ran(acks, inputs).tally, e);
      Ran(acks, inputs + [Input(e, b, true)]).traffic <==>
        AckSum(t) > PKT_COUNT_THRESH && (t.peaks[2] == 0 || 32 * PeakSum(t) > 15 * AckSum(t))
  {
    var events := SinceTraffic(acks, inputs);
    var t := Counting(acks, Ran(acks, inputs).tally, e);
    RunIsRight(acks, inputs);
    assert (events + [e])[..|events|] == events && t == After(acks, events + [e]);
    IncrementalIsRight(acks, events + [e]);
    UnusedBinIsEmpty(acks, events + [e], b.entry);
    RanOn(acks, inputs, Input(e, b, true));
    EntryBehind(acks, t, b, 0);
  }

  /** The counts for widths 33 to 44 in round `r` of all twelve, when `m` of it came. */
  function RoundCount(r: nat, m: nat, w: nat): nat {
    if 33 <= w < 33 + m then r + 1 else if 33 <= w < 45 then r else 0
  }

  function RoundPeaks(r: nat, m: nat): seq<nat> {
    if r > 0 || m >= 3 then [33, 34, 35]
    else if m == 2 then [33, 34, 0]
    else if m == 1 then [33, 0, 0]
    else [0, 0, 0]
  }

  function RoundTally(r: nat, m: nat): (t: Tally)
    ensures t.InRange()
  {
    Tally(seq(MAX_ACK_RADAR_DUR, w requires 0 <= w => RoundCount(r, m, w)), RoundPeaks(r, m), 12 * r + m)
  }

  ghost predicate Covered(acks: set<nat>) {
    forall w :: 33 <= w < 45 ==> w in acks
  }

  lemma AreSignatures()
    ensures Covered(SIGNATURES)
  {
    forall w | 33 <= w < 45
      ensures w in SIGNATURES
    {
      assert Within(w, REGIONS) by { assert Within(w, REGIONS[1..]) || w < 39; }
    }
  }

  /** One more event of a round. */
  lemma RoundGrows(acks: set<nat>, r: nat, m: nat)
    requires Covered(acks) && m < 12
    ensures Counting(acks, RoundTally(r, m), Event(33 + m, 0)) == RoundTally(r, m + 1)
  {
    var t, next := RoundTally(r, m), RoundTally(r, m + 1);
    var h := t.histogram[33 + m := t.histogram[33 + m] + 1];
    assert h == next.histogram;
    assert Updated(h, t.peaks, 33 + m) == next.peaks;
  }

  lemma RoundsShow(r: nat, m: nat, b: Behind, sumpeak: nat)
    requires m < 12 && UnusedBin(b.entry)
    ensures Scanned(RoundTally(r, m + 1), b, sumpeak, MAX_NUM_PEAKS + 1) == Totals(
        sumpeak + RoundCount(r, m + 1, 33) + RoundCount(r, m + 1, 34) + RoundCount(r, m + 1, 35),
        if r > 0 || m >= 2 then 3 else m + 1,
        12 * r + m + 1)
  {
    ScannedTotals(RoundTally(r, m + 1), b, sumpeak);
  }

  lemma RoundsFallShort(r: nat, m: nat, b: Behind)
    requires UnusedBin(b.entry) && ((r < 3 && m < 12) || (r == 3 && m == 0))
    ensures var shown := Scanned(RoundTally(r, m + 1), b, 0, MAX_NUM_PEAKS + 1);
      !StandOut(shown) && (r == 2 && m == 11 ==> shown.sumpeak == 9)
  {
    RoundsShow(r, m, b, 0);
    StandOutIff(Scanned(RoundTally(r, m + 1), b, 0, MAX_NUM_PEAKS + 1));
  }

  /** Three rounds, and the first event of a fourth, do not show traffic. */
  lemma RoundIsQuiet(acks: set<nat>, r: nat, m: nat, b: Behind)
    requires Covered(acks) && UnusedBin(b.entry) && ((r < 3 && m < 12) || (r == 3 && m == 0))
    ensures var o := Judging(acks, RoundTally(r, m), Event(33 + m, 0), b, 0);
      o.tally == RoundTally(r, m + 1) && !o.traffic && (r == 2 && m == 11 ==> o.sumpeak == 9)
  {
    RoundGrows(acks, r, m);
    RoundsFallShort(r, m, b);
  }

  /** `r` rounds and `m` events of the next one; each event is a call of its own. */
  function Rounds(r: nat, m: nat, b: Behind): seq<Input>
    decreases r, m
  {
    if m > 0 then Rounds(r, m - 1, b) + [Input(Event(33 + (m - 1), 0), b, true)]
    else if r > 0 then Rounds(r - 1, 12, b)
    else []
  }

  predicate FewRounds(r: nat, m: nat) {
    (r < 3 && m <= 12) || (r == 3 && m <= 1)
  }

  ghost predicate Quiet(r: nat, m: nat, o: Outcome) {
    o.tally == RoundTally(r, m) && !o.traffic && (12 * r + m == 36 ==> o.sumpeak == 9)
  }

  lemma RoundAdds(acks: set<nat>, r: nat, m: nat, b: Behind, inputs: seq<Input>)
    requires Covered(acks) && UnusedBin(b.entry) && m < 12 && FewRounds(r, m + 1)
    requires Quiet(r, m, Ran(acks, inputs))
    ensures Quiet(r, m + 1, Ran(acks, inputs + [Input(Event(33 + m, 0), b, true)]))
  {
    RanOn(acks, inputs, Input(Event(33 + m, 0), b, true));
    RoundIsQuiet(acks, r, m, b);
  }

  lemma RoundEnds(r: nat, o: Outcome)
    requires Quiet(r, 12, o)
    ensures Quiet(r + 1, 0, o)
  {
    assert RoundTally(r, 12) == RoundTally(r + 1, 0);
  }

  lemma RoundsStart(acks: set<nat>, b: Behind)
    ensures Quiet(0, 0, Ran(acks, Rounds(0, 0, b)))
  {
    assert RoundTally(0, 0) == After(acks, []);
  }

  lemma {:induction false} RoundsAreQuiet(acks: set<nat>, r: nat, m: nat, b: Behind)
    requires Covered(acks) && UnusedBin(b.entry) && FewRounds(r, m)
    ensures Quiet(r, m, Ran(acks, Rounds(r, m, b)))
    decreases r, m
  {
    if m > 0 {
      RoundsAreQuiet(acks, r, m - 1, b);
      RoundAdds(acks, r, m - 1, b, Rounds(r, m - 1, b));
    } else if r > 0 {
      RoundsAreQuiet(acks, r - 1, 12, b);
      RoundEnds(r - 1, Ran(acks, Rounds(r - 1, 12, b)));
    } else {
      RoundsStart(acks, b);
    }
  }

  /** After three rounds, one more event of the same call. */
  lemma RoundsTip(acks: set<nat>, r: nat, b: Behind)
    requires Covered(acks) && UnusedBin(b.entry) && r == 3
    ensures Ran(acks, Rounds(r, 0, b) + [Input(Event(33, 0), b, false)]).traffic
  {
    RoundsAreQuiet(acks, r, 0, b);
    RanOn(acks, Rounds(r, 0, b), Input(Event(33, 0), b, false));
    RoundGrows(acks, r, 0);
    RoundsShow(r, 0, b, 9);
    StandOutIff(Scanned(RoundTally(r, 1), b, 9, MAX_NUM_PEAKS + 1));
  }

  /** The sum of the peaks is not started over between the events of a call. The same events,
      three rounds and one more from a clean start, show no traffic when each is a call of its
      own, and show traffic when the last two share a call. */
  lemma SumRunsOn(r: nat, b: Behind)
    requires r == 3 && UnusedBin(b.entry)
    ensures Rounds(r, 1, b) == Rounds(r, 0, b) + [Input(Event(33, 0), b, true)]
    ensures forall i: nat, m: nat :: FewRounds(i, m) ==> !Ran(SIGNATURES, Rounds(i, m, b)).traffic
    ensures Ran(SIGNATURES, Rounds(r, 0, b) + [Input(Event(33, 0), b, false)]).traffic
  {
    AreSignatures();
    forall i: nat, m: nat | FewRounds(i, m)
      ensures !Ran(SIGNATURES, Rounds(i, m, b)).traffic
    {
      RoundsAreQuiet(SIGNATURES, i, m, b);
    }
    RoundsTip(SIGNATURES, r, b);
  }

  // --- in place -----------------------------------------------------------------------------------------

  class ArState {
    const acks: set<nat>
    const phyerrcount: array<nat>
    const peaklist: array<nat>
    var prevwidth: nat
    var prevtimestamp: nat
    var acksum: nat

    function Counts(): Tally
      reads this`acksum, phyerrcount, peaklist
    {
      Tally(phyerrcount[..], peaklist[..], acksum)
    }

    ghost predicate Valid()
      reads this`acksum, phyerrcount, peaklist
    {
      && phyerrcount.Length == MAX_ACK_RADAR_DUR && peaklist.Length == 3 && phyerrcount != peaklist
      && Right(acks, Counts())
    }

    constructor ()
      ensures Valid() && fresh(phyerrcount) && fresh(peaklist) && acks == SIGNATURES
      ensures Counts() == After(acks, []) && prevwidth == prevtimestamp == 0
    {
      acks := SIGNATURES;
      phyerrcount := new nat[MAX_ACK_RADAR_DUR](i => 0);
      peaklist := new nat[3](i => 0);
      prevwidth, prevtimestamp, acksum := 0, 0, 0;
      new;
      assert peaklist[..] == [0, 0, 0];
      ZeroIsTopThree(acks, phyerrcount[..], peaklist[..]);
    }

    method UpdateTopThreePeaks(width: nat)
      requires phyerrcount.Length == MAX_ACK_RADAR_DUR && peaklist.Length == 3 && phyerrcount != peaklist
      requires width < MAX_ACK_RADAR_DUR && peaklist[0] < MAX_ACK_RADAR_DUR && peaklist[1] < MAX_ACK_RADAR_DUR
        && peaklist[2] < MAX_ACK_RADAR_DUR
      modifies peaklist
      ensures peaklist[..] == Updated(phyerrcount[..], old(peaklist[..]), width)
    {
      if phyerrcount[peaklist[0]] < phyerrcount[width] {
        peaklist[2] := if width != peaklist[1] then peaklist[1] else peaklist[2];
        peaklist[1] := peaklist[0];
        peaklist[0] := width;
      } else if width != peaklist[0] && phyerrcount[peaklist[1]] < phyerrcount[width] {
        peaklist[2] := peaklist[1];
        peaklist[1] := width;
      } else if width != peaklist[1] && width != peaklist[0] && phyerrcount[peaklist[2]] < phyerrcount[width] {
        peaklist[2] := width;
      }
      assert peaklist[..] == [peaklist[0], peaklist[1], peaklist[2]];
    }

    /** Traffic was detected: everything starts over. */
    method Clear()
      requires phyerrcount.Length == MAX_ACK_RADAR_DUR && peaklist.Length == 3 && phyerrcount != peaklist
      modifies this`acksum, phyerrcount, peaklist
      ensures Valid() && Counts() == After(acks, [])
    {
      acksum := 0;
      forall i | 0 <= i < phyerrcount.Length {
        phyerrcount[i] := 0;
      }
      forall i | 0 <= i < 3 {
        peaklist[i] := 0;
      }
      assert peaklist[..] == [0, 0, 0];
      ZeroIsTopThree(acks, phyerrcount[..], peaklist[..]);
    }

    /** Counts an event of a checked width in its bin and, for a signature, brings the peak
        list up to date. */
    method Count(checkedWidth: nat, rssi: nat) returns (bin: nat)
      requires Valid()
      modifies this`acksum, phyerrcount, peaklist
      ensures Valid() && bin == Bin(checkedWidth, rssi)
      ensures Counts() == Counting(acks, old(Counts()), Event(checkedWidth, rssi))
    {
      var width, extra := checkedWidth, 0;
      if width <= 10 {
        return 0;
      }
      if width == 255 && rssi > RSSI_THRESH_STRONG_PKTS {
        width := 2;
      }
      if Long(width) {
        width := 3;
        extra := 2;
      }
      if !(width > 0 && width <= 510) {
        return 0;
      }
      bin := width;
      assert bin == Bin(checkedWidth, rssi) && extra + 1 == Amount(checkedWidth);
      CountWidth(width, extra + 1, rssi);
    }

    /** Adds to a bin, once more for a strong signature. What a signature counts is added to
        the sum as well. */
    method Increment(width: nat, amount: nat, rssi: nat)
      requires phyerrcount.Length == MAX_ACK_RADAR_DUR && width < MAX_ACK_RADAR_DUR
      modifies this`acksum, phyerrcount
      ensures acksum == old(acksum) + if width in acks then amount + Bonus(acks, width, rssi) else 0
      ensures phyerrcount[..]
        == old(phyerrcount[..])[width := old(phyerrcount[width]) + (amount + Bonus(acks, width, rssi))]
    {
      phyerrcount[width] := phyerrcount[width] + amount;
      if width in acks {
        acksum := acksum + amount;
        if rssi > RSSI_DOUBLE_THRESHOLD {
          phyerrcount[width] := phyerrcount[width] + 1;
          acksum := acksum + 1;
        }
      }
    }

    method Bump(width: nat, amount: nat, rssi: nat)
      requires phyerrcount.Length == MAX_ACK_RADAR_DUR && peaklist.Length == 3 && phyerrcount != peaklist
      requires Counts().InRange() && 0 < width < MAX_ACK_RADAR_DUR
      modifies this`acksum, phyerrcount, peaklist
      ensures Counts() == Bumped(acks, old(Counts()), width, amount + Bonus(acks, width, rssi))
    {
      Increment(width, amount, rssi);
      if width in acks {
        UpdateTopThreePeaks(width);
      }
    }

    /** Counts for a bin and, for a signature, brings the peak list up to date. */
    method CountWidth(width: nat, amount: nat, rssi: nat)
      requires Valid() && 0 < width < MAX_ACK_RADAR_DUR && amount > 0
      modifies this`acksum, phyerrcount, peaklist
      ensures Valid()
      ensures Counts() == Bumped(acks, old(Counts()), width, amount + Bonus(acks, width, rssi))
    {
      BumpedIsRight(acks, Counts(), width, amount + Bonus(acks, width, rssi));
      Bump(width, amount, rssi);
    }

    /** Follows pulses of the maximum width. */
    method Aggregate(re_dur: nat) returns (width: nat)
      modifies this`prevwidth
      ensures Aggregated(old(prevwidth), re_dur) == Width(width, prevwidth)
    {
      width := re_dur;
      if prevwidth == 255 {
        prevwidth := prevwidth + width;
        width := if width == 255 then 255 else prevwidth;
      } else if width == 255 && (prevwidth == 510 || prevwidth == 765 || prevwidth == 1020) {
        prevwidth := prevwidth + width;
      } else if prevwidth == 1275 && width != 255 {
        width := width + prevwidth;
        prevwidth := 0;
      } else if prevwidth > 255 {
        prevwidth := width;
        width := 255;
      } else {
        prevwidth := width;
      }
    }

    /** One event of the queue. `sumpeak` runs on from one event of a call to the next, and
        `behind` is what the memory after the peak list holds. */
    method ProcessArEvent(re_ts: nat, rssi: nat, re_dur: nat, sumpeak: nat, behind: Behind)
      returns (result: bool, sum: nat)
      requires Valid()
      modifies this, phyerrcount, peaklist
      ensures Valid()
      ensures var a := Aggregated(old(prevwidth), re_dur);
        var width := Checked(a.width, re_ts % 0x1_0000, old(prevtimestamp));
        && prevwidth == a.prevwidth
        && prevtimestamp == (if Bin(width, rssi) == 0 then old(prevtimestamp) else re_ts % 0x1_0000)
        && Judging(acks, old(Counts()), Event(width, rssi), behind, sumpeak) == Outcome(Counts(), sum, result)
    {
      var thistimestamp := re_ts % 0x1_0000;
      var width := Aggregate(re_dur);
      width := Checked(width, thistimestamp, prevtimestamp);
      result, sum := Judge(width, thistimestamp, rssi, sumpeak, behind);
    }

    /** Counts an event of a checked width and tests the peaks. */
    method Judge(width: nat, thistimestamp: nat, rssi: nat, sumpeak: nat, behind: Behind)
      returns (result: bool, sum: nat)
      requires Valid()
      modifies this`prevtimestamp, this`acksum, phyerrcount, peaklist
      ensures Valid()
      ensures prevtimestamp == (if Bin(width, rssi) == 0 then old(prevtimestamp) else thistimestamp)
      ensures Judging(acks, old(Counts()), Event(width, rssi), behind, sumpeak) == Outcome(Counts(), sum, result)
    {
      var bin := Count(width, rssi);
      result, sum := false, sumpeak;
      if bin != 0 {
        if bin in acks {
          result, sum := TestPeaks(sumpeak, behind);
        }
        prevtimestamp := thistimestamp;
      }
    }

    /** Adds up the peaks, the entry behind the list among them. */
    method AddPeaks(sumpeak: nat, behind: Behind) returns (sum: nat, numpeaks: int)
      requires phyerrcount.Length == MAX_ACK_RADAR_DUR && peaklist.Length == 3 && Counts().InRange()
      modifies this`acksum
      ensures Scanned(old(Counts()), behind, sumpeak, MAX_NUM_PEAKS + 1) == Totals(sum, numpeaks, acksum)
    {
      ghost var t := Counts();
      sum, numpeaks := sumpeak, MAX_NUM_PEAKS;
      for i := 0 to MAX_NUM_PEAKS + 1
        invariant Scanned(t, behind, sumpeak, i) == Totals(sum, numpeaks, acksum)
        modifies this`acksum
      {
        var w := if i < MAX_NUM_PEAKS then peaklist[i] else behind.entry;
        if w > 0 {
          if i == 0 && w == 3 && phyerrcount[3] < phyerrcount[2] && phyerrcount[3] > 6 {
            sum := sum + (phyerrcount[2] + phyerrcount[3]);
            acksum := acksum + (phyerrcount[2] + phyerrcount[3]);
          } else {
            sum := sum + if w < MAX_ACK_RADAR_DUR then phyerrcount[w] else behind.word;
          }
        } else {
          numpeaks := numpeaks - 1;
        }
      }
    }

    /** Compares the peaks with the sum of all signatures. */
    method TestPeaks(sumpeak: nat, behind: Behind) returns (result: bool, sum: nat)
      requires Valid()
      modifies this`acksum, phyerrcount, peaklist
      ensures Valid()
      ensures var r := Scanned(old(Counts()), behind, sumpeak, MAX_NUM_PEAKS + 1);
        result == StandOut(r) && sum == r.sumpeak && Counts() == if result then After(acks, []) else old(Counts())
    {
      ghost var t := Counts();
      var origregionsum := acksum;
      var numpeaks: int;
      sum, numpeaks := AddPeaks(sumpeak, behind);
      result := acksum > PKT_COUNT_THRESH
        && Low32(sum * REGION_WIDTH) > Low32(ACK_DETECT_PAR_THRESH * numpeaks * acksum);
      if result {
        Clear();
      } else {
        acksum := origregionsum;
        assert Counts() == t;
      }
    }
  }
}
