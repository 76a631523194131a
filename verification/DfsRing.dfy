/** The delay line of a radar filter: a ring of pulses trimmed to the length of the filter. */
module DfsRing {
  import opened Ring

  const DL_SIZE: nat := 64
  const U32: nat := 0x1_0000_0000
  const HALF: nat := 0x8000_0000

  datatype Pulse = Pulse(time: nat, dur: nat, rssi: nat)

  function Total(s: seq<Pulse>): nat
  {
    if s == [] then 0 else s[0].time + Total(s[1..])
  }

  /** Intervals add up. */
  lemma {:induction false} TotalsAdd(s: seq<Pulse>, t: seq<Pulse>)
    ensures Total(s + t) == Total(s) + Total(t) && (|s| == 1 ==> Total(s) == s[0].time)
  {
    if s == [] {
      assert s + t == t;
    } else {
      assert (s + t)[1..] == s[1..] + t;
      TotalsAdd(s[1..], t);
    }
  }

  /** What the newest `n` pulses span. */
  function Span(s: seq<Pulse>, n: nat): nat
    requires n <= |s|
  {
    Total(s[|s| - n..])
  }

  lemma SpanStep(s: seq<Pulse>, n: nat)
    requires n < |s|
    ensures Span(s, n + 1) == s[|s| - n - 1].time + Span(s, n)
  {
    assert s[|s| - n - 1..][1..] == s[|s| - n..];
  }

  lemma {:induction false} LongerIsMore(s: seq<Pulse>, n: nat, k: nat)
    requires n <= k <= |s|
    ensures Span(s, n) <= Span(s, k)
    decreases k - n
  {
    if n < k {
      SpanStep(s, n);
      LongerIsMore(s, n + 1, k);
    }
  }

  /** Intervals are 32-bit words. */
  ghost predicate Words(s: seq<Pulse>) {
    forall i :: 0 <= i < |s| ==> s[i].time < U32
  }

  /** Addition of 32-bit words. */
  function Add32(a: nat, b: nat): (r: nat)
    ensures r < U32 && (a + b < U32 ==> r == a + b)
  {
    (a + b) % U32
  }

  /** The sum over the newest `n` pulses as the code computes it. */
  function Window(s: seq<Pulse>, n: nat): nat
    requires n <= |s|
  {
    Span(s, n) % U32
  }

  lemma WindowStep(s: seq<Pulse>, n: nat)
    requires n < |s|
    ensures Window(s, n + 1) == Add32(Window(s, n), s[|s| - n - 1].time)
  {
    SpanStep(s, n);
  }

  // --- what the filter should keep --------------------------------------------------------

  /** The newest `n` pulses are the most that span no more than `limit`, at least one. */
  ghost predicate TrimsTo(s: seq<Pulse>, n: nat, limit: nat) {
    && 1 <= n <= |s| && (n == 1 || Span(s, n) <= limit)
    && (forall k :: n < k <= |s| ==> limit < Span(s, k))
  }

  /** `t` is the longest end of `s` that spans no more than `limit`, and at least the newest
      pulse. */
  ghost predicate IsTrimmed(s: seq<Pulse>, t: seq<Pulse>, limit: nat) {
    TrimsTo(s, |t|, limit) && t == s[|s| - |t|..]
  }

  lemma TrimIsUnique(s: seq<Pulse>, t: seq<Pulse>, u: seq<Pulse>, limit: nat)
    requires IsTrimmed(s, t, limit) && IsTrimmed(s, u, limit)
    ensures t == u
  {
  }

  /** The first end of `s` that spans too much decides: `n` pulses fit and one more does not. */
  lemma TrimAt(s: seq<Pulse>, n: nat, limit: nat)
    requires 1 <= n <= |s| && (n == 1 || Span(s, n) <= limit)
    requires n < |s| ==> limit < Span(s, n + 1)
    ensures TrimsTo(s, n, limit)
  {
    forall k | n < k <= |s|
      ensures limit < Span(s, k)
    {
      LongerIsMore(s, n + 1, k);
    }
  }

  // --- what it does keep, with sums of 32 bits ------------------------------------------------

  /** The loop stops in front of the first pulse that takes the 32-bit sum beyond the limit. */
  ghost predicate StopsAt(s: seq<Pulse>, n: nat, limit: nat) {
    && 1 <= n <= |s| && (n < |s| ==> limit < Window(s, n + 1))
    && (forall k :: 2 <= k <= n ==> Window(s, k) <= limit)
  }

  /** `t` is the end of `s` in front of which the loop stops. */
  ghost predicate StopsTo(s: seq<Pulse>, t: seq<Pulse>, limit: nat) {
    StopsAt(s, |t|, limit) && t == s[|s| - |t|..]
  }

  /** How many pulses the filter should keep. */
  function Wanted(s: seq<Pulse>, limit: nat): (r: nat)
    requires s != []
    ensures TrimsTo(s, r, limit)
  {
    WantedFrom(s, 1, limit)
  }

  function WantedFrom(s: seq<Pulse>, n: nat, limit: nat): (r: nat)
    requires 1 <= n <= |s| && (n == 1 || Span(s, n) <= limit)
    ensures n <= r && TrimsTo(s, r, limit)
    decreases |s| - n
  {
    if n == |s| || limit < Span(s, n + 1) then (TrimAt(s, n, limit); n) else WantedFrom(s, n + 1, limit)
  }

  /** The first sum beyond the limit does not wrap to within it. */
  predicate SumHolds(s: seq<Pulse>, limit: nat)
    requires s != []
  {
    Wanted(s, limit) == |s| || limit < Window(s, Wanted(s, limit) + 1)
  }

  /** The loop keeps what it should exactly when nothing is to be given up, or the first sum
      beyond the limit does not wrap to within it. */
  lemma StopsRightIff(s: seq<Pulse>, n: nat, limit: nat)
    requires s != [] && limit < U32 && StopsAt(s, n, limit)
    ensures TrimsTo(s, n, limit) <==> SumHolds(s, limit)
  {
    var w := Wanted(s, limit);
    forall k | 2 <= k <= w
      ensures Window(s, k) <= limit
    {
      LongerIsMore(s, k, w);
    }
    assert w <= n;
    if w < |s| { assert w < n <==> Window(s, w + 1) <= limit; }
  }

  /** It never wraps while intervals and limit stay below half the range. */
  lemma ShortNeverWraps(s: seq<Pulse>, limit: nat)
    requires s != [] && limit < HALF && forall i :: 0 <= i < |s| ==> s[i].time < HALF
    ensures SumHolds(s, limit)
  {
    var w := Wanted(s, limit);
    if w < |s| {
      SpanStep(s, w);
      if w == 1 { SpanStep(s, 0); }
      assert limit < Span(s, w + 1);
    }
  }

  /** A long interval that wraps the sum: of three pulses two are kept, though they span more
      than an hour, and the limit is 1000. */
  lemma WrapKeepsAnOldPulse()
    ensures var s := [Pulse(2000, 1, 1), Pulse(U32 - 10, 1, 1), Pulse(20, 1, 1)];
      StopsAt(s, 2, 1000) && !TrimsTo(s, 2, 1000)
  {
    var s := [Pulse(2000, 1, 1), Pulse(U32 - 10, 1, 1), Pulse(20, 1, 1)];
    SpanStep(s, 0);
    SpanStep(s, 1);
    SpanStep(s, 2);
  }

  // --- the search for the cut -------------------------------------------------------------

  /** Where the walk back through the ring stands: still looking, or past the cut. */
  ghost predicate Cutting(c: seq<Pulse>, start: nat, first0: nat, first: nat, num: nat, n: nat, index: nat,
      window: nat, limit: nat) {
    && n < |c| <= DL_SIZE && start < DL_SIZE && index == Place(DL_SIZE, start, |c| - 1 - n)
    && (if num == |c| then
          first == first0 && window == Window(c, n + 1) && forall k :: 2 <= k <= n + 1 ==> Window(c, k) <= limit
        else 0 < num == n && first == Place(DL_SIZE, start, |c| - num) && StopsAt(c, num, limit))
  }

  lemma CutStep(c: seq<Pulse>, start: nat, first: nat, n: nat, index: nat, window: nat, limit: nat)
    requires n < |c| - 1 && Cutting(c, start, first, first, |c|, n, index, window, limit)
    ensures var i, w := Before(DL_SIZE, index), Add32(window, c[|c| - 2 - n].time);
      && i == Place(DL_SIZE, start, |c| - 2 - n)
      && (if w > limit then Cutting(c, start, first, Place(DL_SIZE, i, 1), n + 1, n + 1, i, w, limit)
          else Cutting(c, start, first, first, |c|, n + 1, i, w, limit))
  {
    PlaceSteps(DL_SIZE, start, |c| - 2 - n);
    WindowStep(c, n + 1);
  }

  // --- the ring -------------------------------------------------------------------------------

  /** Where the oldest of `num` pulses is when the newest is at `last`. */
  function Start(last: nat, num: nat): (r: nat)
    requires last < DL_SIZE && num <= DL_SIZE
    ensures r < DL_SIZE && Place(DL_SIZE, r, num) == Place(DL_SIZE, last, 1)
    ensures num > 0 ==> Place(DL_SIZE, r, num - 1) == last
  {
    Place(DL_SIZE, Place(DL_SIZE, last, 1), DL_SIZE - num)
  }

  lemma PushedAt(a: seq<Pulse>, last: nat, num: nat, p: Pulse)
    requires |a| == DL_SIZE && last < DL_SIZE && num <= DL_SIZE
    ensures var i, n := Place(DL_SIZE, last, 1), if num == DL_SIZE then num else num + 1;
      RingOf(a[i := p], Start(i, n), n) == Appended(DL_SIZE, RingOf(a, Start(last, num), num), p)
  {
    if num == DL_SIZE {
      RingPushFull(a, Start(last, num), p);
    } else {
      RingPush(a, Start(last, num), num, p);
    }
  }

  class DelayLine {
    const elems: array<Pulse>
    var first: nat
    var last: nat
    var num: nat

    ghost predicate Sized()
      reads this
    {
      elems.Length == DL_SIZE && first < DL_SIZE && last < DL_SIZE && num <= DL_SIZE
    }

    /** The first index is where the oldest pulse is. */
    ghost predicate Consistent()
      reads this
    {
      Sized() && first == Start(last, num)
    }

    /** The pulses up to the newest one. */
    ghost function Contents(): (r: seq<Pulse>)
      requires Sized()
      reads this, elems
      ensures |r| == num
    {
      RingOf(elems[..], Start(last, num), num)
    }

    ghost predicate Valid()
      reads this, elems
    {
      Sized() && Words(Contents())
    }

    /** As the lines are left by dfs_reset_alldelaylines. */
    constructor ()
      ensures Valid() && Consistent() && Contents() == [] && fresh(elems)
    {
      elems := new Pulse[DL_SIZE](i => Pulse(0, 0, 0));
      first, num, last := 0, 0, DL_SIZE - 1;
    }

    method Push(deltaT: nat, dur: nat, rssi: nat)
      requires Valid() && deltaT < U32
      modifies this, elems
      ensures Valid() && Contents() == Appended(DL_SIZE, old(Contents()), Pulse(deltaT, dur, rssi))
      ensures Consistent() <==> old(Consistent())
    {
      ghost var a, p := elems[..], Pulse(deltaT, dur, rssi);
      PushedAt(a, last, num, p);
      var index := Place(DL_SIZE, last, 1);
      if num == DL_SIZE {
        first := Place(DL_SIZE, first, 1);
      } else {
        num := num + 1;
      }
      last := index;
      elems[index] := Pulse(deltaT, dur, rssi);
      assert elems[..] == a[index := p];
    }

    /** The pulse in front of the one at `index`. */
    method Earlier(index: nat, ghost start: nat, ghost m: nat, ghost i: nat) returns (prev: nat, pri: nat)
      requires elems.Length == DL_SIZE && start < DL_SIZE && i + 1 < m <= DL_SIZE
        && index == Place(DL_SIZE, start, i + 1)
      ensures prev == Before(DL_SIZE, index) && pri == RingOf(elems[..], start, m)[i].time
    {
      PlaceSteps(DL_SIZE, start, i);
      prev := Before(DL_SIZE, index);
      pri := elems[prev].time;
    }

    /** Takes one more pulse into the window; cuts in front of it when that is too much. */
    method Widen(index: nat, n: nat, window: nat, filterlen: nat, ghost c: seq<Pulse>, ghost start: nat,
        ghost first0: nat)
      returns (prev: nat, wider: nat)
      requires elems.Length == DL_SIZE && start < DL_SIZE && |c| <= DL_SIZE && c == RingOf(elems[..], start, |c|)
      requires n < |c| - 1 && num == |c| && first == first0
        && Cutting(c, start, first0, first, num, n, index, window, filterlen)
      modifies this`first, this`num
      ensures Cutting(c, start, first0, first, num, n + 1, prev, wider, filterlen)
    {
      CutStep(c, start, first, n, index, window, filterlen);
      var pri;
      prev, pri := Earlier(index, start, |c|, |c| - 2 - n);
      wider := Add32(window, pri);
      if wider > filterlen {
        first := Place(DL_SIZE, prev, 1);
        num := n + 1;
      }
    }

    /** Walks back from the newest pulse and cuts where the window outgrows the filter. */
    method Cut(filterlen: nat)
      requires Valid() && 0 < num
      modifies this`first, this`num
      ensures StopsAt(old(Contents()), num, filterlen)
      ensures first == if num == old(num) then old(first) else Start(last, num)
    {
      ghost var c, start, first0 := Contents(), Start(last, num), first;
      var index, n := last, 0;
      var window: nat := elems[index].time;
      SpanStep(c, 0);
      while n < num - 1
        invariant num <= |c| && Cutting(c, start, first0, first, num, n, index, window, filterlen)
        decreases |c| - n
      {
        index, window := Widen(index, n, window, filterlen, c, start, first0);
        n := n + 1;
      }
      CutStart(last, |c|, num);
    }

    /** Keeps the pulses the walk stops at; a cut makes the first index right again. */
    method Trim(filterlen: nat)
      requires Valid() && 0 < num
      modifies this`first, this`num
      ensures Valid() && num <= old(num)
      ensures StopsTo(old(Contents()), Contents(), filterlen)
      ensures Consistent() <==> old(Consistent()) || num < old(num)
    {
      ghost var m := num;
      Cut(filterlen);
      CutStart(last, m, num);
      RingSuffix(elems[..], Start(last, m), m, num);
    }

    method AddPulse(deltaT: nat, dur: nat, rssi: nat, filterlen: nat)
      requires Valid() && deltaT < U32
      modifies this, elems
      ensures var all := Appended(DL_SIZE, old(Contents()), Pulse(deltaT, dur, rssi));
        && Valid() && StopsTo(all, Contents(), filterlen)
        && (Consistent() <==> old(Consistent()) || num < |all|)
    {
      Push(deltaT, dur, rssi);
      Trim(filterlen);
    }

    /** A fixed pattern was found: the pulses are dropped, the start of the ring stays. The
        ring is consistent afterwards exactly when it was empty or full. */
    method DropAll()
      requires Sized()
      modifies this`num
      ensures Sized() && Contents() == [] && first == old(first) && last == old(last)
      ensures old(Consistent()) ==> (Consistent() <==> old(num) == 0 || old(num) == DL_SIZE)
    {
      num := 0;
    }
  }

  /** Fewer pulses start later. */
  lemma CutStart(last: nat, m: nat, n: nat)
    requires last < DL_SIZE && n <= m <= DL_SIZE
    ensures Place(DL_SIZE, Start(last, m), m - n) == Start(last, n)
  {
  }

  // --- over whole runs --------------------------------------------------------------------------

  datatype Change = Added(pulse: Pulse) | Dropped

  ghost predicate Follows(filterlen: nat, change: Change, before: seq<Pulse>, after: seq<Pulse>) {
    match change
    case Added(p) => StopsTo(Appended(DL_SIZE, before, p), after, filterlen)
    case Dropped => after == []
  }

  /** What the line holds after each change. */
  ghost predicate IsHistory(filterlen: nat, changes: seq<Change>, lines: seq<seq<Pulse>>) {
    && |lines| == |changes| + 1 && lines[0] == []
    && (forall i, j :: 0 <= i < j < |lines| && j == i + 1 ==> Follows(filterlen, changes[i], lines[i], lines[j]))
  }

  lemma StopIsUnique(s: seq<Pulse>, t: seq<Pulse>, u: seq<Pulse>, limit: nat)
    requires StopsTo(s, t, limit) && StopsTo(s, u, limit)
    ensures t == u
  {
  }

  /** What a line holds, and so how many pulses, is a matter of the pulses added and the drops
      alone. The first index, which a drop can leave wrong, has no part in it. */
  lemma {:induction false} HistoryIsUnique(limit: nat, changes: seq<Change>, lines: seq<seq<Pulse>>,
      others: seq<seq<Pulse>>, k: nat)
    requires IsHistory(limit, changes, lines) && IsHistory(limit, changes, others) && k <= |changes|
    ensures lines[k] == others[k]
  {
    if k > 0 {
      HistoryIsUnique(limit, changes, lines, others, k - 1);
      assert Follows(limit, changes[k - 1], lines[k - 1], lines[k]);
      assert Follows(limit, changes[k - 1], others[k - 1], others[k]);
      match changes[k - 1]
      case Added(p) => StopIsUnique(Appended(DL_SIZE, lines[k - 1], p), lines[k], others[k], limit);
      case Dropped =>
    }
  }

  /** The pulses that came since the last drop. */
  function Since(changes: seq<Change>): seq<Pulse>
  {
    if changes == [] then []
    else
      match changes[|changes| - 1]
      case Added(p) => Since(changes[..|changes| - 1]) + [p]
      case Dropped => []
  }

  /** `t` is the longest end of `pulses` that spans no more than the limit, at least the newest
      pulse, and no more than fit the ring. */
  ghost predicate IsLatest(pulses: seq<Pulse>, t: seq<Pulse>, limit: nat) {
    && |t| <= |pulses| && |t| <= DL_SIZE && t == pulses[|pulses| - |t|..]
    && (pulses != [] ==> t != []) && (|t| <= 1 || Total(t) <= limit)
    && (forall n :: |t| < n <= |pulses| && n <= DL_SIZE ==> limit < Span(pulses, n))
  }

  lemma NoneIsLonger(pulses: seq<Pulse>, t: seq<Pulse>, u: seq<Pulse>, limit: nat)
    requires IsLatest(pulses, t, limit) && IsLatest(pulses, u, limit)
    ensures |u| <= |t|
  {
    assert |u| > 1 ==> Span(pulses, |u|) <= limit;
  }

  predicate HoldsUp(limit: nat, change: Change, line: seq<Pulse>) {
    match change
    case Added(p) => SumHolds(Appended(DL_SIZE, line, p), limit)
    case Dropped => true
  }

  /** From a line that is right, the next one is right exactly when the sum holds. */
  lemma LatestStepIff(pulses: seq<Pulse>, p: Pulse, s: seq<Pulse>, t: seq<Pulse>, limit: nat)
    requires limit < U32 && IsLatest(pulses, s, limit) && StopsTo(Appended(DL_SIZE, s, p), t, limit)
    ensures IsLatest(pulses + [p], t, limit) <==> SumHolds(Appended(DL_SIZE, s, p), limit)
  {
    var a := Appended(DL_SIZE, s, p);
    var wanted := a[|a| - Wanted(a, limit)..];
    StopsRightIff(a, |t|, limit);
    LatestStep(pulses, p, s, wanted, limit);
    if IsLatest(pulses + [p], t, limit) {
      NoneIsLonger(pulses + [p], t, wanted, limit);
      NoneIsLonger(pulses + [p], wanted, t, limit);
    } else if TrimsTo(a, |t|, limit) {
      LatestStep(pulses, p, s, t, limit);
    }
  }

  /** After `k` changes the line holds the latest of all pulses since the last drop. */
  ghost predicate IsRight(limit: nat, changes: seq<Change>, lines: seq<seq<Pulse>>, k: nat)
    requires k <= |changes| < |lines|
  {
    IsLatest(Since(changes[..k]), lines[k], limit)
  }

  /** The sum that ends the search at change `i` does not wrap to within the limit. */
  ghost predicate Holds(limit: nat, changes: seq<Change>, lines: seq<seq<Pulse>>, i: nat)
    requires i < |changes| < |lines|
  {
    HoldsUp(limit, changes[i], lines[i])
  }

  lemma IsRightIff(limit: nat, changes: seq<Change>, lines: seq<seq<Pulse>>, i: nat)
    requires limit < U32 && IsHistory(limit, changes, lines) && i < |changes| && IsRight(limit, changes, lines, i)
    ensures IsRight(limit, changes, lines, i + 1) <==> Holds(limit, changes, lines, i)
  {
    assert Follows(limit, changes[i], lines[i], lines[i + 1]);
    assert changes[..i + 1][..i] == changes[..i];
    match changes[i]
    case Added(p) => LatestStepIff(Since(changes[..i]), p, lines[i], lines[i + 1], limit);
    case Dropped =>
  }

  lemma StartsRight(limit: nat, changes: seq<Change>, lines: seq<seq<Pulse>>)
    requires IsHistory(limit, changes, lines)
    ensures IsRight(limit, changes, lines, 0)
  {
    assert changes[..0] == [];
  }

  lemma {:induction false} StepByStep(right: seq<bool>, holds: seq<bool>, k: nat)
    requires k < |right| && k <= |holds| && right[0]
    requires forall i, j :: 0 <= i < j <= k && j == i + 1 && right[i] ==> (right[j] <==> holds[i])
    ensures (forall j :: 0 <= j <= k ==> right[j]) <==> (forall i :: 0 <= i < k ==> holds[i])
  {
    if k > 0 {
      StepByStep(right, holds, k - 1);
      assert right[k - 1] ==> (right[k] <==> holds[k - 1]);
    }
  }

  /** Over any run, drops among it: up to any change the line has always held the latest of all
      pulses since the last drop exactly when no sum that ends a search wraps to within the
      limit. */
  lemma HoldsTheLatest(limit: nat, changes: seq<Change>, lines: seq<seq<Pulse>>, k: nat)
    requires limit < U32 && IsHistory(limit, changes, lines) && k <= |changes|
    ensures (forall j :: 0 <= j <= k ==> IsRight(limit, changes, lines, j))
       <==> (forall i :: 0 <= i < k ==> Holds(limit, changes, lines, i))
  {
    var right := seq(k + 1, j requires 0 <= j <= k => IsRight(limit, changes, lines, j));
    var holds := seq(k, i requires 0 <= i < k => Holds(limit, changes, lines, i));
    StartsRight(limit, changes, lines);
    forall i, j | 0 <= i < j <= k && j == i + 1 && right[i]
      ensures right[j] <==> holds[i]
    {
      IsRightIff(limit, changes, lines, i);
    }
    StepByStep(right, holds, k);
    assert forall j :: 0 <= j <= k ==> right[j] == IsRight(limit, changes, lines, j);
    assert forall i :: 0 <= i < k ==> holds[i] == Holds(limit, changes, lines, i);
  }

  predicate IsShort(change: Change) {
    change.Added? ==> change.pulse.time < HALF
  }

  ghost predicate AreShort(s: seq<Pulse>) {
    forall i :: 0 <= i < |s| ==> s[i].time < HALF
  }

  lemma StaysShort(limit: nat, change: Change, before: seq<Pulse>, after: seq<Pulse>)
    requires limit < HALF && Follows(limit, change, before, after) && IsShort(change) && AreShort(before)
    ensures AreShort(after) && HoldsUp(limit, change, before)
  {
    if change.Added? { ShortNeverWraps(Appended(DL_SIZE, before, change.pulse), limit); }
  }

  /** With intervals and limit below half the range it always does. */
  lemma {:induction false} ShortRunsHold(limit: nat, changes: seq<Change>, lines: seq<seq<Pulse>>, k: nat)
    requires limit < HALF && IsHistory(limit, changes, lines) && k <= |changes|
    requires forall i :: 0 <= i < |changes| ==> IsShort(changes[i])
    ensures IsRight(limit, changes, lines, k) && AreShort(lines[k])
  {
    if k == 0 {
      StartsRight(limit, changes, lines);
    } else {
      ShortRunsHold(limit, changes, lines, k - 1);
      assert Follows(limit, changes[k - 1], lines[k - 1], lines[k]);
      StaysShort(limit, changes[k - 1], lines[k - 1], lines[k]);
      IsRightIff(limit, changes, lines, k - 1);
    }
  }

  lemma LatestStep(pulses: seq<Pulse>, p: Pulse, s: seq<Pulse>, t: seq<Pulse>, limit: nat)
    requires IsLatest(pulses, s, limit) && IsTrimmed(Appended(DL_SIZE, s, p), t, limit)
    ensures IsLatest(pulses + [p], t, limit)
  {
    var all, a := pulses + [p], Appended(DL_SIZE, s, p);
    AppendedEnd(pulses, s, p);
    SameEnd(all, a, |t|);
    forall n | |t| < n <= |all| && n <= DL_SIZE
      ensures limit < Span(all, n)
    {
      if n <= |a| {
        SameEnd(all, a, n);
      } else {
        TooLongBefore(pulses, s, p, n, limit);
      }
    }
  }

  lemma AppendedEnd(pulses: seq<Pulse>, s: seq<Pulse>, p: Pulse)
    requires |s| <= |pulses| && |s| <= DL_SIZE && s == pulses[|pulses| - |s|..]
    ensures var all, a := pulses + [p], Appended(DL_SIZE, s, p); |a| <= |all| && a == all[|all| - |a|..]
  {
  }

  lemma TooLongBefore(pulses: seq<Pulse>, s: seq<Pulse>, p: Pulse, n: nat, limit: nat)
    requires IsLatest(pulses, s, limit) && |Appended(DL_SIZE, s, p)| < n <= |pulses| + 1 && n <= DL_SIZE
    ensures limit < Span(pulses + [p], n)
  {
    assert limit < Span(pulses, n - 1);
    OneMore(pulses, p, n);
  }

  lemma SameEnd(all: seq<Pulse>, a: seq<Pulse>, n: nat)
    requires n <= |a| <= |all| && a == all[|all| - |a|..]
    ensures a[|a| - n..] == all[|all| - n..] && Span(a, n) == Span(all, n)
  {
  }

  lemma OneMore(pulses: seq<Pulse>, p: Pulse, n: nat)
    requires 1 <= n <= |pulses| + 1
    ensures Span(pulses, n - 1) <= Span(pulses + [p], n)
  {
    TotalAppend(pulses[|pulses| - (n - 1)..], p);
    assert (pulses + [p])[|pulses| + 1 - n..] == pulses[|pulses| - (n - 1)..] + [p];
  }

  lemma {:induction false} TotalAppend(s: seq<Pulse>, p: Pulse)
    ensures Total(s + [p]) == Total(s) + p.time
  {
    if s == [] {
      assert s + [p] == [p] && [p][1..] == [];
    } else {
      assert (s + [p])[1..] == s[1..] + [p];
      TotalAppend(s[1..], p);
    }
  }
}
