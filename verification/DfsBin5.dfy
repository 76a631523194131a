/** Long-pulse (bin 5) radars: a ring of pulses with plausible gaps inside a time window, and
    the search for bursts in it. */
module DfsBin5 {
  import opened CreditMath
  import opened Ring

  const B5_SIZE: nat := 128
  const PRI_LOWER_LIMIT: nat := 990
  const PRI_HIGHER_LIMIT: nat := 2010
  const BRI_LOWER_LIMIT: nat := 300000
  const WIDTH_MARGIN: nat := 4
  const RSSI_MARGIN: nat := 5
  const LEAST_SPAN: nat := 3000000

  const U64: nat := 0x1_0000_0000_0000_0000

  /** Time stamps are 64-bit words, and so are their differences. */
  type Stamp = x: int | 0 <= x < U64

  datatype Elem = Elem(ts: Stamp, rssi: nat, dur: nat)

  function Sub64(a: Stamp, b: Stamp): Stamp
  {
    if b <= a then a - b else a - b + U64
  }

  // --- which pulses are kept ------------------------------------------------------------------

  /** A gap inside a burst, or one between bursts. */
  predicate GoodGap(gap: nat) {
    PRI_LOWER_LIMIT <= gap <= PRI_HIGHER_LIMIT || BRI_LOWER_LIMIT <= gap
  }

  predicate Accepts(s: seq<Elem>, ts: Stamp)
  {
    s == [] || GoodGap(Sub64(ts, s[|s| - 1].ts))
  }

  /** A pulse is accepted when nothing precedes it, and otherwise 990 to 2010 microseconds, or at
      least 300 milliseconds, after the newest one. */
  lemma AcceptsIff(s: seq<Elem>, ts: Stamp)
    ensures s == [] ==> Accepts(s, ts)
    ensures s != [] ==>
      var newest := s[|s| - 1].ts;
      var gap := if newest <= ts then ts - newest else ts - newest + U64;
      Accepts(s, ts) <==> 990 <= gap <= 2010 || 300000 <= gap
  {
  }

  ghost predicate GoodGaps(s: seq<Elem>) {
    forall i, j :: 0 <= i < j < |s| && j == i + 1 ==> GoodGap(Sub64(s[j].ts, s[i].ts))
  }

  /** The first `k` elements are too old. */
  ghost predicate Expired(s: seq<Elem>, k: nat, now: Stamp, window: nat) {
    k <= |s| && forall i :: 0 <= i < k ==> window < Sub64(now, s[i].ts)
  }

  /** `t` is what remains of `s` once the pulses in front that are too old for the newest one
      are gone. */
  ghost predicate IsRecent(s: seq<Elem>, t: seq<Elem>, window: nat) {
    && 1 <= |t| <= |s| && t == s[|s| - |t|..]
    && Expired(s, |s| - |t|, s[|s| - 1].ts, window)
    && (|t| > 1 ==> Sub64(s[|s| - 1].ts, t[0].ts) <= window)
  }

  /** What every run keeps: plausible gaps between neighbours, and an oldest pulse within the
      window of the newest one. */
  ghost predicate Plausible(s: seq<Elem>, window: nat) {
    GoodGaps(s) && (|s| > 1 ==> Sub64(s[|s| - 1].ts, s[0].ts) <= window)
  }

  /** All but the newest `num` pulses were given up; `stop` says the next one may stay. */
  ghost predicate Expiring(c: seq<Elem>, start: nat, first: nat, num: nat, stop: bool, now: Stamp, window: nat) {
    && 0 < num <= |c| <= B5_SIZE && start < B5_SIZE && first == Place(B5_SIZE, start, |c| - num)
    && Expired(c, |c| - num, now, window) && (stop ==> Sub64(now, c[|c| - num].ts) <= window)
  }

  lemma ExpireOne(c: seq<Elem>, start: nat, first: nat, num: nat, now: Stamp, window: nat)
    requires Expiring(c, start, first, num, false, now, window) && 1 < num && window < Sub64(now, c[|c| - num].ts)
    ensures Expiring(c, start, Place(B5_SIZE, first, 1), num - 1, false, now, window)
  {
    PlaceSteps(B5_SIZE, start, |c| - num);
  }

  lemma AppendedOk(s: seq<Elem>, e: Elem, window: nat)
    requires Plausible(s, window) && Accepts(s, e.ts)
    ensures GoodGaps(Appended(B5_SIZE, s, e))
  {
  }

  lemma RecentOk(s: seq<Elem>, t: seq<Elem>, window: nat)
    requires GoodGaps(s) && IsRecent(s, t, window)
    ensures Plausible(t, window)
  {
    assert forall i :: 0 <= i < |t| ==> t[i] == s[i + (|s| - |t|)];
  }

  // --- time stamps that run on, and one that falls back -----------------------------------------

  ghost predicate Ordered(s: seq<Elem>) {
    forall i, j :: 0 <= i <= j < |s| ==> s[i].ts <= s[j].ts
  }

  lemma AppendedOrdered(s: seq<Elem>, e: Elem)
    requires Ordered(s) && (s != [] ==> s[|s| - 1].ts <= e.ts)
    ensures Ordered(Appended(B5_SIZE, s, e))
  {
  }

  lemma TailOrdered(s: seq<Elem>, t: seq<Elem>)
    requires Ordered(s) && |t| <= |s| && t == s[|s| - |t|..]
    ensures Ordered(t) && (t != [] ==> t[|t| - 1] == s[|s| - 1])
  {
  }

  /** While stamps do not decrease, all pulses are within the window of the newest one. */
  lemma OrderedAreRecent(s: seq<Elem>, e: Elem, t: seq<Elem>, window: nat)
    requires Ordered(s) && (s != [] ==> s[|s| - 1].ts <= e.ts) && IsRecent(Appended(B5_SIZE, s, e), t, window)
    ensures Ordered(t)
    ensures |t| > 1 ==> forall i :: 0 <= i < |t| ==> e.ts - t[i].ts <= window
  {
    AppendedOrdered(s, e);
    TailIsRecent(Appended(B5_SIZE, s, e), t, window);
  }

  lemma TailIsRecent(a: seq<Elem>, t: seq<Elem>, window: nat)
    requires Ordered(a) && IsRecent(a, t, window)
    ensures Ordered(t)
    ensures |t| > 1 ==> forall i :: 0 <= i < |t| ==> a[|a| - 1].ts - t[i].ts <= window
  {
    TailOrdered(a, t);
    if |t| > 1 { OldestIsFurthest(t, a[|a| - 1].ts, window); }
  }

  lemma OldestIsFurthest(t: seq<Elem>, now: Stamp, window: nat)
    requires Ordered(t) && t != [] && t[|t| - 1].ts == now && Sub64(now, t[0].ts) <= window
    ensures forall i :: 0 <= i < |t| ==> now - t[i].ts <= window
  {
    assert t[0].ts <= now;
    assert forall i :: 0 <= i < |t| ==> t[0].ts <= t[i].ts;
  }

  /** A stamp that falls back behind everything in the ring, but not by almost the whole range,
      is taken for a gap between bursts, and everything else is forgotten. */
  lemma FallingBackForgets(s: seq<Elem>, e: Elem, t: seq<Elem>, window: nat)
    requires s != [] && BRI_LOWER_LIMIT <= window < U64
    requires forall i :: 0 <= i < |s| ==> 0 < s[i].ts - e.ts < U64 - window
    requires IsRecent(Appended(B5_SIZE, s, e), t, window)
    ensures Accepts(s, e.ts) && t == [e]
  {
    var a := Appended(B5_SIZE, s, e);
    forall i | 0 <= i < |a| - 1
      ensures window < Sub64(e.ts, a[i].ts)
    {
      assert a[i] == if |s| == B5_SIZE then s[i + 1] else s[i];
    }
  }

  // --- what counts as a burst ---------------------------------------------------------------------

  function Diff(a: nat, b: nat): nat
  {
    if a >= b then a - b else b - a
  }

  /** Two neighbours belong to a burst: repetition interval, width and strength agree. A time
      stamp that went backwards is taken for a roll-over. */
  predicate Match(prev: Elem, this_: Elem) {
    && PRI_LOWER_LIMIT <= (if this_.ts >= prev.ts then this_.ts - prev.ts else this_.ts) <= PRI_HIGHER_LIMIT
    && Diff(this_.dur, prev.dur) <= WIDTH_MARGIN && Diff(this_.rssi, prev.rssi) <= RSSI_MARGIN
  }

  /** In numbers: the later one comes 990 to 2010 microseconds after the earlier one, or that long
      after zero when stamps went backwards; the widths differ by at most 4 and the strengths by at
      most 5. */
  lemma MatchIff(prev: Elem, this_: Elem)
    ensures Match(prev, this_) <==>
      && (prev.ts + 990 <= this_.ts <= prev.ts + 2010 || (this_.ts < prev.ts && 990 <= this_.ts <= 2010))
      && prev.dur <= this_.dur + 4 && this_.dur <= prev.dur + 4
      && prev.rssi <= this_.rssi + 5 && this_.rssi <= prev.rssi + 5
  {
  }

  /** Matching neighbours among the first `n` elements. */
  function Bursts(s: seq<Elem>, n: nat): nat
    requires n <= |s|
  {
    if n < 2 then 0 else Bursts(s, n - 1) + (if Match(s[n - 2], s[n - 1]) then 1 else 0)
  }

  /** `c` with the pair that ends at `i`; its first half may have been the last one already. */
  function WithPair(c: seq<nat>, i: nat): seq<nat>
    requires 1 <= i
  {
    if c != [] && c[|c| - 1] == i - 1 then c + [i] else c + [i - 1, i]
  }

  /** Offsets of the elements that belong to a burst, as the loop collects them. */
  function Collected(s: seq<Elem>, n: nat): seq<nat>
    requires n <= |s|
  {
    if n < 2 then []
    else
      var c := Collected(s, n - 1);
      if Match(s[n - 2], s[n - 1]) then WithPair(c, n - 1) else c
  }

  predicate Paired(s: seq<Elem>, n: nat, o: int)
    requires n <= |s|
  {
    0 <= o < n && ((0 < o && Match(s[o - 1], s[o])) || (o + 1 < n && Match(s[o], s[o + 1])))
  }

  ghost predicate Increasing(c: seq<nat>, bound: nat) {
    (forall i, j :: 0 <= i < j < |c| ==> c[i] < c[j]) && (forall i :: 0 <= i < |c| ==> c[i] < bound)
  }

  lemma {:induction false} IncreasingIsShort(c: seq<nat>, bound: nat)
    requires Increasing(c, bound)
    ensures |c| <= bound
  {
    if c != [] {
      IncreasingIsShort(c[..|c| - 1], c[|c| - 1]);
    }
  }

  /** The collected offsets are strictly increasing. */
  lemma {:induction false} CollectedIncreases(s: seq<Elem>, n: nat)
    requires n <= |s|
    ensures Increasing(Collected(s, n), n)
    ensures 2 <= n && Match(s[n - 2], s[n - 1])
      ==> Collected(s, n) != [] && Collected(s, n)[|Collected(s, n)| - 1] == n - 1
  {
    if n >= 2 {
      CollectedIncreases(s, n - 1);
    }
  }

  /** Exactly the elements with a matching neighbour are collected. */
  lemma {:induction false} CollectedArePaired(s: seq<Elem>, n: nat)
    requires n <= |s|
    ensures forall o :: o in Collected(s, n) <==> Paired(s, n, o)
  {
    if n >= 2 {
      CollectedArePaired(s, n - 1);
      CollectedIncreases(s, n - 1);
      var c := Collected(s, n - 1);
      forall o
        ensures o in Collected(s, n) <==> Paired(s, n, o)
      {
        assert o in c <==> Paired(s, n - 1, o);
        if c != [] && c[|c| - 1] == n - 2 { assert n - 2 in c; }
      }
    }
  }

  /** There are more collected elements than bursts, and no more than elements: the averages
      never divide by zero and the index array never overflows. */
  lemma {:induction false} BurstsAndEvents(s: seq<Elem>, n: nat)
    requires n <= |s|
    ensures Bursts(s, n) > 0 ==> Bursts(s, n) + 1 <= |Collected(s, n)| <= n
    ensures Bursts(s, n) == 0 ==> Collected(s, n) == []
  {
    CollectedIncreases(s, n);
    IncreasingIsShort(Collected(s, n), n);
    if n >= 2 { BurstsAndEvents(s, n - 1); }
  }

  /** One element more: what the loop adds, and that there is room for it. */
  lemma CollectStep(s: seq<Elem>, i: nat)
    requires i < |s| <= B5_SIZE
    ensures |Collected(s, i)| != 1
    ensures if i >= 1 && Match(s[i - 1], s[i])
      then Collected(s, i + 1) == WithPair(Collected(s, i), i) && |WithPair(Collected(s, i), i)| <= B5_SIZE
        && Bursts(s, i + 1) == Bursts(s, i) + 1
      else Collected(s, i + 1) == Collected(s, i) && Bursts(s, i + 1) == Bursts(s, i)
  {
    BurstsAndEvents(s, i);
    BurstsAndEvents(s, i + 1);
  }

  // --- the verdict --------------------------------------------------------------------------------

  /** The total width of the elements at the given offsets, and their total distance from a
      width. */
  function TotalWidth(s: seq<Elem>, c: seq<nat>): nat
    requires forall i :: 0 <= i < |c| ==> c[i] < |s|
  {
    if c == [] then 0 else TotalWidth(s, c[..|c| - 1]) + s[c[|c| - 1]].dur
  }

  function TotalDiff(s: seq<Elem>, c: seq<nat>, width: nat): nat
    requires forall i :: 0 <= i < |c| ==> c[i] < |s|
  {
    if c == [] then 0 else TotalDiff(s, c[..|c| - 1], width) + Diff(s[c[|c| - 1]].dur, width)
  }

  /** Both are sums over the offsets. */
  lemma {:induction false} WidthsAdd(s: seq<Elem>, c: seq<nat>, d: seq<nat>, width: nat)
    requires (forall i :: 0 <= i < |c| ==> c[i] < |s|) && (forall i :: 0 <= i < |d| ==> d[i] < |s|)
    ensures TotalWidth(s, c + d) == TotalWidth(s, c) + TotalWidth(s, d)
    ensures TotalDiff(s, c + d, width) == TotalDiff(s, c, width) + TotalDiff(s, d, width)
  {
    if d == [] {
      assert c + d == c;
    } else {
      assert (c + d)[..|c + d| - 1] == c + d[..|d| - 1];
      WidthsAdd(s, c, d[..|d| - 1], width);
    }
  }

  lemma WidthOfOne(s: seq<Elem>, o: nat, width: nat)
    requires o < |s|
    ensures TotalWidth(s, [o]) == s[o].dur
    ensures TotalDiff(s, [o], width) == if s[o].dur < width then width - s[o].dur else s[o].dur - width
  {
    assert [o][..0] == [];
  }

  function Mean(total: nat, n: nat): nat
    requires n > 0
  {
    total / n
  }

  /** The widths are further from their average, on average, than the margin. */
  predicate Vary(s: seq<Elem>, c: seq<nat>)
    requires c != [] && forall i :: 0 <= i < |c| ==> c[i] < |s|
  {
    Mean(TotalDiff(s, c, Mean(TotalWidth(s, c), |c|)), |c|) > WIDTH_MARGIN
  }

  /** The widths vary enough when their distances from the whole number below their average add up
      to at least five for each. */
  lemma VaryIff(s: seq<Elem>, c: seq<nat>, average: nat)
    requires c != [] && forall i :: 0 <= i < |c| ==> c[i] < |s|
    requires average * |c| <= TotalWidth(s, c) < (average + 1) * |c|
    ensures Vary(s, c) <==> 5 * |c| <= TotalDiff(s, c, average)
  {
    var n, total := |c|, TotalWidth(s, c);
    MulSucc(average, n);
    QuotientIs(total, n, average);
    MeanAbove(TotalDiff(s, c, average), n);
  }

  lemma MeanAbove(total: nat, n: nat)
    requires 0 < n
    ensures Mean(total, n) > 4 <==> 5 * n <= total
  {
    var q := total / n;
    assert total == q * n + total % n;
    MulSucc(q, n);
    if q > 4 {
      MulOrder(5, q, n);
    } else {
      MulOrder(q + 1, 5, n);
    }
  }

  /** Of all that is collected. */
  function TotalWidthOf(s: seq<Elem>): nat
  {
    CollectedIncreases(s, |s|);
    TotalWidth(s, Collected(s, |s|))
  }

  function TotalDiffOf(s: seq<Elem>, width: nat): nat
  {
    CollectedIncreases(s, |s|);
    TotalDiff(s, Collected(s, |s|), width)
  }

  /** The offsets whose element matches the one before it. */
  function Ends(s: seq<Elem>, n: nat): (r: seq<nat>)
    requires n <= |s|
  {
    if n < 2 then [] else Ends(s, n - 1) + if Match(s[n - 2], s[n - 1]) then [n - 1] else []
  }

  lemma {:induction false} EndsAre(s: seq<Elem>, n: nat, o: nat)
    requires n <= |s|
    ensures o in Ends(s, n) <==> 1 <= o < n && Match(s[o - 1], s[o])
  {
    if n >= 2 {
      EndsAre(s, n - 1, o);
      var last := if Match(s[n - 2], s[n - 1]) then [n - 1] else [];
      assert Ends(s, n) == Ends(s, n - 1) + last;
      assert o in Ends(s, n) <==> o in Ends(s, n - 1) || o in last;
    }
  }

  /** They are counted once each. */
  lemma {:induction false} EndsAreBursts(s: seq<Elem>, n: nat)
    requires n <= |s|
    ensures Bursts(s, n) == |Ends(s, n)| && Increasing(Ends(s, n), n)
  {
    if n >= 2 { EndsAreBursts(s, n - 1); }
  }

  /** Enough bursts over a long enough time, whose widths vary enough. */
  function Found(s: seq<Elem>, threshold: nat): bool
    requires 0 < threshold
  {
    var c := Collected(s, |s|);
    BurstsAndEvents(s, |s|);
    CollectedIncreases(s, |s|);
    && Bursts(s, |s|) >= threshold
    && Sub64(s[|s| - 1].ts, s[0].ts) >= LEAST_SPAN
    && Vary(s, c)
  }

  /** A radar is found exactly when at least `threshold` neighbours match, the newest pulse comes at
      least three seconds after the oldest, and the widths vary enough. */
  lemma FoundIff(s: seq<Elem>, threshold: nat, average: nat)
    requires 0 < threshold
    requires var n := |Collected(s, |s|)|;
      n == 0 || (average * n <= TotalWidthOf(s) < (average + 1) * n)
    ensures Found(s, threshold) <==>
      && |Ends(s, |s|)| >= threshold
      && 3000000 <= (if s[0].ts <= s[|s| - 1].ts then s[|s| - 1].ts - s[0].ts else s[|s| - 1].ts - s[0].ts + U64)
      && 5 * |Collected(s, |s|)| <= TotalDiffOf(s, average)
  {
    BurstsAndEvents(s, |s|);
    CollectedIncreases(s, |s|);
    EndsAreBursts(s, |s|);
    if Bursts(s, |s|) > 0 { VaryIff(s, Collected(s, |s|), average); }
  }

  // --- in place -----------------------------------------------------------------------------------

  class Bin5Radar {
    const elems: array<Elem>
    const timewindow: nat
    const threshold: nat
    var first: nat
    var last: nat
    var num: nat

    ghost predicate Consistent()
      reads this
    {
      && elems.Length == B5_SIZE && first < B5_SIZE && last < B5_SIZE && num <= B5_SIZE
      && Place(B5_SIZE, first, num) == Place(B5_SIZE, last, 1)
    }

    ghost function Contents(): (r: seq<Elem>)
      requires Consistent()
      reads this, elems
      ensures |r| == num
    {
      RingOf(elems[..], first, num)
    }

    ghost predicate Valid()
      reads this, elems
    {
      Consistent() && Plausible(Contents(), timewindow)
    }

    constructor (timewindow: nat, threshold: nat)
      ensures Valid() && Contents() == [] && fresh(elems) && this.timewindow == timewindow
        && this.threshold == threshold
    {
      this.timewindow, this.threshold := timewindow, threshold;
      elems := new Elem[B5_SIZE](i => Elem(0, 0, 0));
      first, num, last := 0, 0, B5_SIZE - 1;
    }

    /** The i-th pulse. */
    method Read(index: nat, ghost start: nat, ghost m: nat, ghost i: nat) returns (e: Elem)
      requires elems.Length == B5_SIZE && start < B5_SIZE && i < m <= B5_SIZE && index == Place(B5_SIZE, start, i)
      ensures e == RingOf(elems[..], start, m)[i]
    {
      e := elems[index];
    }

    method Newest() returns (e: Elem)
      requires Consistent() && num > 0
      ensures e == Contents()[num - 1]
    {
      PlaceSteps(B5_SIZE, first, num - 1);
      e := elems[last];
    }

    method Push(e: Elem)
      requires Consistent()
      modifies this`first, this`last, this`num, elems
      ensures Consistent() && Contents() == Appended(B5_SIZE, old(Contents()), e)
    {
      ghost var a := elems[..];
      var index := Place(B5_SIZE, last, 1);
      last := index;
      if num == B5_SIZE {
        RingPushFull(a, first, e);
        first := Place(B5_SIZE, first, 1);
      } else {
        RingPush(a, first, num, e);
        num := num + 1;
      }
      elems[index] := e;
      assert elems[..] == a[index := e];
    }

    method TooOld(index: nat, thists: Stamp, ghost start: nat, ghost m: nat, ghost i: nat) returns (old_: bool)
      requires elems.Length == B5_SIZE && start < B5_SIZE && i < m <= B5_SIZE && index == Place(B5_SIZE, start, i)
      ensures old_ == (Sub64(thists, RingOf(elems[..], start, m)[i].ts) > timewindow)
    {
      var e := Read(index, start, m, i);
      old_ := Sub64(thists, e.ts) > timewindow;
    }

    /** Gives up pulses from the front that are too old for the newest one. */
    method Expire(thists: Stamp)
      requires Consistent() && num > 0 && Contents()[num - 1].ts == thists
      modifies this`first, this`num
      ensures Consistent() && IsRecent(old(Contents()), Contents(), timewindow)
    {
      ghost var start, m := first, num;
      GiveUp(thists);
      PlaceShift(B5_SIZE, start, m, num);
      RingSuffix(elems[..], start, m, num);
    }

    /** Walks from the oldest pulse to the first that may stay. */
    method GiveUp(thists: Stamp)
      requires Consistent() && num > 0
      modifies this`first, this`num
      ensures 0 < num <= old(num)
      ensures Expiring(old(Contents()), old(first), first, num, num > 1, thists, timewindow)
    {
      ghost var c, start, m := Contents(), first, num;
      var stop, index := false, first;
      while !stop && num - 1 > 0
        invariant Expiring(c, start, first, num, stop, thists, timewindow) && index == first
        decreases !stop, num
      {
        var expired := TooOld(index, thists, start, m, m - num);
        if expired {
          ExpireOne(c, start, first, num, thists, timewindow);
          num := num - 1;
          first := Place(B5_SIZE, first, 1);
          index := first;
        } else {
          stop := true;
        }
      }
    }

    /** Takes a pulse if its gap to the newest one is plausible. */
    method AddPulse(thists: Stamp, rssi: nat, dur: nat) returns (taken: bool)
      requires Valid()
      modifies this`first, this`last, this`num, elems
      ensures Valid()
      ensures taken == Accepts(old(Contents()), thists)
      ensures !taken ==> Contents() == old(Contents())
      ensures taken ==> IsRecent(Appended(B5_SIZE, old(Contents()), Elem(thists, rssi, dur)), Contents(), timewindow)
    {
      if num != 0 {
        var newest := Newest();
        var tsDelta := Sub64(thists, newest.ts);
        if tsDelta < PRI_LOWER_LIMIT || (tsDelta > PRI_HIGHER_LIMIT && tsDelta < BRI_LOWER_LIMIT) {
          return false;
        }
      }
      AppendedOk(Contents(), Elem(thists, rssi, dur), timewindow);
      ghost var a := Appended(B5_SIZE, Contents(), Elem(thists, rssi, dur));
      Push(Elem(thists, rssi, dur));
      Expire(thists);
      RecentOk(a, Contents(), timewindow);
      taken := true;
    }

    /** Saves the places of a matching pair. */
    method RecordPair(index: array<nat>, numevents: nat, prev: nat, here: nat, ghost c: seq<nat>, ghost i: nat)
      returns (n: nat)
      requires Recorded(index[..], first, c, numevents) && |c| != 1 && 1 <= i < B5_SIZE && |WithPair(c, i)| <= B5_SIZE
      requires prev == Place(B5_SIZE, first, i - 1) && here == Place(B5_SIZE, first, i)
      modifies index
      ensures Recorded(index[..], first, WithPair(c, i), n)
    {
      ghost var before := index[..];
      n := numevents;
      if n >= 2 {
        PlaceInjective(B5_SIZE, first, c[n - 1], i - 1);
        if index[n - 1] != prev {
          index[n] := prev;
          n := n + 1;
        }
      } else {
        index[n] := prev;
        n := n + 1;
      }
      index[n] := here;
      n := n + 1;
    }

    /** Collects the elements that belong to bursts into an index array. */
    method CollectBursts(index: array<nat>) returns (bursts: nat, numevents: nat)
      requires Valid() && index.Length == B5_SIZE
      modifies index
      ensures bursts == Bursts(Contents(), num)
      ensures Recorded(index[..], first, Collected(Contents(), num), numevents)
    {
      bursts, numevents := 0, 0;
      ghost var s := Contents();
      var prev, i := first, 0;
      while i < num
        invariant 0 <= i <= num && prev == Place(B5_SIZE, first, if i == 0 then 0 else i - 1)
        invariant bursts == Bursts(s, i) && Recorded(index[..], first, Collected(s, i), numevents)
      {
        var here := Place(B5_SIZE, first, i);
        var pair := Compare(prev, here, i);
        CollectStep(s, i);
        if pair {
          bursts := bursts + 1;
          numevents := RecordPair(index, numevents, prev, here, Collected(s, i), i);
        }
        prev := here;
        i := i + 1;
      }
    }

    /** Whether the element at `here` and the one before it belong to a burst; the first one
        is compared with itself, which never matches. */
    method Compare(prev: nat, here: nat, ghost i: nat) returns (pair: bool)
      requires Consistent() && i < num && here == Place(B5_SIZE, first, i)
        && prev == Place(B5_SIZE, first, if i == 0 then 0 else i - 1)
      ensures pair == (i >= 1 && Match(Contents()[i - 1], Contents()[i]))
    {
      var p := Read(prev, first, num, if i == 0 then 0 else i - 1);
      var e := Read(here, first, num, i);
      pair := Match(p, e);
    }

    /** Sum of the widths, and of their distances from `width`, over the recorded elements. */
    method SumWidths(index: array<nat>, numevents: nat, ghost c: seq<nat>) returns (total: nat)
      requires Valid() && Recorded(index[..], first, c, numevents) && forall k :: 0 <= k < |c| ==> c[k] < num
      ensures total == TotalWidth(Contents(), c)
    {
      total := 0;
      var i := 0;
      while i < numevents
        invariant 0 <= i <= numevents && total == TotalWidth(Contents(), c[..i])
      {
        assert c[..i + 1][..i] == c[..i];
        var e := Read(index[i], first, num, c[i]);
        total := total + e.dur;
        i := i + 1;
      }
      assert c[..numevents] == c;
    }

    method SumDiffs(index: array<nat>, numevents: nat, width: nat, ghost c: seq<nat>) returns (total: nat)
      requires Valid() && Recorded(index[..], first, c, numevents) && forall k :: 0 <= k < |c| ==> c[k] < num
      ensures total == TotalDiff(Contents(), c, width)
    {
      total := 0;
      var i := 0;
      while i < numevents
        invariant 0 <= i <= numevents && total == TotalDiff(Contents(), c[..i], width)
      {
        assert c[..i + 1][..i] == c[..i];
        var e := Read(index[i], first, num, c[i]);
        total := total + Diff(e.dur, width);
        i := i + 1;
      }
      assert c[..numevents] == c;
    }

    /** Looks for a radar in the pulses collected so far. */
    method Check() returns (found: bool)
      requires Valid() && 0 < threshold
      ensures found == Found(Contents(), threshold)
    {
      ghost var s := Contents();
      BurstsAndEvents(s, num);
      CollectedIncreases(s, num);
      var index := new nat[B5_SIZE](i => 0);
      var bursts, numevents := CollectBursts(index);
      if bursts < threshold {
        return false;
      }
      var oldest := Read(first, first, num, 0);
      var newest := Newest();
      if Sub64(newest.ts, oldest.ts) < LEAST_SPAN {
        return false;
      }
      found := WidthsVary(index, numevents, Collected(s, num));
    }

    /** The test of the widths of the recorded pulses. */
    method WidthsVary(index: array<nat>, numevents: nat, ghost c: seq<nat>) returns (found: bool)
      requires Valid() && Recorded(index[..], first, c, numevents) && c != [] && forall k :: 0 <= k < |c| ==> c[k] < num
      ensures found == Vary(Contents(), c)
    {
      var totalWidth := SumWidths(index, numevents, c);
      var averageWidth := Mean(totalWidth, numevents);
      var totalDiff := SumDiffs(index, numevents, averageWidth, c);
      found := Mean(totalDiff, numevents) > WIDTH_MARGIN;
    }
  }

  /** The first `n` entries of the index array are the ring places of the offsets. */
  ghost predicate Recorded(index: seq<nat>, first: nat, c: seq<nat>, n: nat) {
    && |index| == B5_SIZE && first < B5_SIZE && n == |c| <= B5_SIZE
    && (forall k :: 0 <= k < n ==> c[k] < B5_SIZE && index[k] == Place(B5_SIZE, first, c[k]))
  }
}
