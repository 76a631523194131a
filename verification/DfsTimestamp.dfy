/** Extending the time stamp of a received pulse to 64 bits. The low part comes from the receive
    descriptor and wraps; the full time stamp says how often it may have wrapped. */
module DfsTimestamp {
  import opened CreditMath

  const WORD: nat := 0x1_0000_0000
  const U64: nat := 0x1_0000_0000_0000_0000

  /** `period` is 2^DFS_TSSHIFT, one more than DFS_TSMASK; `register` the number of values the
      field that remembers the last low part can hold. */
  datatype Clock = Clock(period: nat, register: nat) {
    predicate Valid() { 1 < period <= WORD && 1 < register }
  }

  /** As the sources define them: 32-bit time stamps, remembered in 16 bits. */
  const SHIPPED := Clock(WORD, 0x1_0000)

  /** A received pulse: the low part and the full time stamp. */
  datatype Event = Event(ts: nat, full: nat)

  datatype Memory = Memory(lastFull: nat, last: nat, prefix: nat)

  /** So many whole periods. */
  function Periods(n: nat, p: nat): (r: nat)
    requires 0 < p
    ensures r == n * p
  {
    if n == 0 then 0 else (MulGrows(n, p); n * p)
  }

  /** Further wraps after one was seen; the room up to it is computed in 32 bits. */
  function AfterWrap(c: Clock, last: nat, ts: nat, delta: nat): nat
    requires c.Valid() && ts <= last < c.period
  {
    var room := (c.period - 1 - last + 1 + ts) % WORD;
    var wraps := (if delta > room then delta - room else delta) / c.period;
    if wraps > 1 then Periods(wraps - 1, c.period) else 0
  }

  function WithoutWrap(c: Clock, delta: nat): nat
    requires c.Valid()
  {
    if delta > c.period - 1 then
      assert 1 <= delta / c.period by { AtLeastOne(delta, c.period); }
      Periods(delta / c.period - 1, c.period)
    else 0
  }

  /** How far the prefix moves when the full time stamp moved by `delta`. */
  function Growth(c: Clock, last: nat, ts: nat, delta: nat): nat
    requires c.Valid() && last < c.period && ts < c.period
  {
    if ts <= last then c.period + AfterWrap(c, last, ts, delta) else WithoutWrap(c, delta)
  }

  /** The prefix for a low part `ts` that arrives at full time `full`, were it unbounded. */
  function NextPrefix(c: Clock, m: Memory, ts: nat, full: nat): nat
    requires c.Valid() && m.last < c.period && ts < c.period && m.lastFull <= full
  {
    if m.lastFull == 0 then 0 else m.prefix + Growth(c, m.last, ts, full - m.lastFull)
  }

  lemma AtLeastOne(x: nat, d: nat)
    requires 0 < d <= x
    ensures 1 <= x / d
  {
    assert x == x / d * d + x % d;
  }

  function Next(c: Clock, m: Memory, ts: nat, full: nat): Memory
    requires c.Valid() && m.last < c.period && ts < c.period && m.lastFull <= full
  {
    Memory(full, ts % c.register, NextPrefix(c, m, ts, full))
  }

  // --- in words of 64 bits ------------------------------------------------------------------------

  function Add64(a: nat, b: nat): (r: nat)
    ensures r < U64 && (a + b < U64 ==> r == a + b)
  {
    (a + b) % U64
  }

  function Sub64(a: nat, b: nat): (r: nat)
    requires a < U64 && b < U64
    ensures r < U64 && Add64(b, r) == a
  {
    if b <= a then a - b else a - b + U64
  }

  /** Full time stamps may move either way. */
  function Next64(c: Clock, m: Memory, ts: nat, full: nat): Memory
    requires c.Valid() && m.last < c.period && ts < c.period && m.lastFull < U64 && full < U64
  {
    Memory(full, ts % c.register,
      if m.lastFull == 0 then 0 else Add64(m.prefix, Growth(c, m.last, ts, Sub64(full, m.lastFull))))
  }

  lemma AddTwice(a: nat, b: nat, c: nat)
    ensures Add64(Add64(a, b), c) == Add64(a, b + c)
  {
  }

  /** With stamps of 32 bits and a low part that moved up, a full time stamp that falls by up to
      one period takes the prefix back by two. */
  lemma FullFallsBack(c: Clock, m: Memory, ts: nat, full: nat)
    requires c.Valid() && c.period == WORD && m.last < ts < WORD && m.prefix < U64
    requires 0 < m.lastFull < U64 && m.lastFull - WORD <= full < m.lastFull
    ensures Next64(c, m, ts, full).prefix
         == if 2 * WORD <= m.prefix then m.prefix - 2 * WORD else m.prefix - 2 * WORD + U64
  {
    var delta := Sub64(full, m.lastFull);
    assert U64 == WORD * WORD && delta == U64 - (m.lastFull - full);
    QuotientIs(delta, WORD, WORD - 1);
    assert WithoutWrap(c, delta) == (WORD - 2) * WORD;
  }

  /** The low part and the prefix share no bits, so that or-ing them adds them. */
  lemma OrIsPlus(prefix: bv64, ts: bv64)
    ensures prefix & 0xFFFF_FFFF == 0 && ts <= 0xFFFF_FFFF ==> prefix | ts == prefix + ts
    ensures prefix & 0x7FFF == 0 && ts <= 0x7FFF ==> prefix | ts == prefix + ts
  {
  }

  class Extender {
    const c: Clock
    var m: Memory

    ghost predicate Valid()
      reads this
    {
      c.Valid() && m.last < c.period && m.lastFull < U64 && m.prefix < U64
    }

    constructor (c: Clock)
      requires c.Valid()
      ensures Valid() && this.c == c && m == Memory(0, 0, 0)
    {
      this.c, m := c, Memory(0, 0, 0);
    }

    method Extend(ts: nat, full: nat) returns (thisTs: nat)
      requires Valid() && ts < c.period && full < U64
      modifies this
      ensures Valid() && m == Next64(c, old(m), ts, full) && thisTs == m.prefix + ts
    {
      RemainderBelow(ts, c.register);
      var prefix := m.prefix;
      if m.lastFull == 0 {
        prefix := 0;
      } else if ts <= m.last {
        var missed := MissedWraps(Sub64(full, m.lastFull), ts);
        AddTwice(prefix, c.period, missed);
        prefix := Add64(prefix, c.period);
        prefix := Add64(prefix, missed);
      } else {
        var missed := MissedPeriods(Sub64(full, m.lastFull));
        prefix := Add64(prefix, missed);
      }
      thisTs := prefix + ts;
      m := Memory(full, ts % c.register, prefix);
    }

    /** What to add for further wraps when one was seen. */
    method MissedWraps(delta: nat, ts: nat) returns (extra: nat)
      requires c.Valid() && ts <= m.last < c.period
      ensures extra == AfterWrap(c, m.last, ts, delta)
    {
      var deltafull := delta;
      var room := (c.period - 1 - m.last + 1 + ts) % WORD;
      if deltafull > room {
        deltafull := deltafull - room;
      }
      deltafull := deltafull / c.period;
      extra := 0;
      if deltafull > 1 {
        extra := Periods(deltafull - 1, c.period);
      }
    }

    /** What to add when no wrap was seen. */
    method MissedPeriods(delta: nat) returns (extra: nat)
      requires c.Valid()
      ensures extra == WithoutWrap(c, delta)
    {
      extra := 0;
      if delta > c.period - 1 {
        var deltafull := delta / c.period;
        AtLeastOne(delta, c.period);
        extra := Periods(deltafull - 1, c.period);
      }
    }
  }

  // --- which way a stamp moves ----------------------------------------------------------------

  /** What is remembered of an event with low part `prev`. */
  ghost predicate Remembers(c: Clock, m: Memory, prev: nat)
    requires c.Valid()
  {
    0 < m.lastFull && m.last == prev % c.register && m.last <= prev < c.period
  }

  lemma RemainderBelow(x: nat, d: nat)
    requires 0 < d
    ensures x % d <= x
  {
    assert x == x / d * d + x % d && 0 <= x / d * d;
  }

  /** The stamp falls back: the wrap went unnoticed, and the full stamps do not tell. */
  predicate FallsBack(c: Clock, prev: Event, next: Event)
    requires c.Valid()
  {
    prev.ts % c.register < next.ts <= prev.ts && next.full < prev.full + 2 * c.period
  }

  lemma LessThanOne(x: nat, d: nat)
    requires 0 < d
    ensures x < d ==> x / d == 0
    ensures d <= x < 2 * d ==> x / d == 1
    ensures 2 * d <= x ==> 2 <= x / d
  {
    if x < d { QuotientIs(x, d, 0); }
    if d <= x < 2 * d { QuotientIs(x, d, 1); }
    assert x == x / d * d + x % d;
    if 2 * d <= x && x / d < 2 { MulOrder(x / d, 1, d); }
  }

  /** Whatever the full stamps are, the stamp moves forward unless it falls back. */
  lemma AdvancesIff(c: Clock, m: Memory, prev: Event, next: Event)
    requires c.Valid() && Remembers(c, m, prev.ts) && m.lastFull == prev.full <= next.full && next.ts < c.period
    ensures m.prefix + prev.ts < NextPrefix(c, m, next.ts, next.full) + next.ts <==> !FallsBack(c, prev, next)
  {
    var delta := next.full - m.lastFull;
    LessThanOne(delta, c.period);
    if m.last < next.ts && 2 * c.period <= delta { MulGrows(delta / c.period - 1, c.period); }
  }

  // --- how well a gap between two events is reconstructed ---------------------------------------

  function AtLeast1(n: int): nat
  {
    if n < 1 then 1 else n
  }

  /** How many periods are added for two events `k` periods apart, with low parts `prev` and
      `next`, when the full stamps are exact. */
  function SeenPeriods(c: Clock, prev: nat, next: nat, k: nat): nat
    requires c.Valid()
  {
    var whole := if prev < c.register then k else k - 1;
    if next <= prev % c.register
      then AtLeast1(if c.period == WORD && next == prev % c.register then whole else whole - 1)
    else AtLeast1(if prev <= next then k else k - 1) - 1
  }

  lemma KeptIff(x: nat, d: nat)
    requires 0 < d
    ensures x % d == x <==> x < d
  {
  }

  /** `k` periods less a part of one. */
  lemma PartShort(k: nat, p: nat, d: nat)
    requires 1 <= k && d < p
    ensures d <= k * p && (k * p - d) / p == if d == 0 then k else k - 1
  {
    MulSucc(k - 1, p);
    QuotientIs(k * p - d, p, if d == 0 then k else k - 1);
    if d == 0 { MulSucc(k, p); }
  }

  lemma WrapSeen(c: Clock, m: Memory, prev: nat, next: nat, k: nat, full: nat)
    requires c.Valid() && Remembers(c, m, prev) && next <= m.last && 1 <= k
    requires m.lastFull <= full == m.lastFull + k * c.period + next - prev
    ensures NextPrefix(c, m, next, full) == m.prefix + SeenPeriods(c, prev, next, k) * c.period
  {
    var p, d, delta := c.period, prev - m.last, full - m.lastFull;
    var whole: int := if prev < c.register then k else k - 1;
    KeptIff(prev, c.register);
    if p == WORD && next == m.last {
      PartShort(k, p, d);
      AddPeriods(m.prefix, whole, p);
    } else {
      WrapsSeen(p, m.last, next, d, k, delta);
      AddPeriods(m.prefix, whole - 1, p);
      assert d == 0 <==> prev < c.register;
    }
  }

  /** What is left of a gap behind a wrap that was seen, in whole periods. */
  lemma WrapsSeen(p: nat, last: nat, next: nat, d: nat, k: nat, delta: int)
    requires 1 < p <= WORD && next <= last && last + d < p && 1 <= k && !(p == WORD && next == last)
    requires delta == k * p + next - last - d && 0 <= delta
    ensures var room := (p - 1 - last + 1 + next) % WORD;
      var wraps := (if delta > room then delta - room else delta) / p;
      if k == 1 then wraps <= 1 else wraps == if d == 0 then k - 1 else k - 2
  {
    var room := (p - 1 - last + 1 + next) % WORD;
    assert room == p - last + next;
    MulSucc(k - 1, p);
    if k == 1 {
      LessThanOne(delta, p);
      assert delta <= room && delta < 2 * p;
    } else {
      PartShort(k - 1, p, d);
      MulGrows(k - 1, p);
      assert delta - room == (k - 1) * p - d;
    }
  }

  /** One period for the wrap, and one for each further wrap. */
  lemma AddPeriods(prefix: nat, wraps: int, p: nat)
    requires 0 < p
    ensures prefix + p + (if wraps > 1 then Periods(wraps - 1, p) else 0) == prefix + AtLeast1(wraps) * p
  {
    if wraps > 1 { MulSucc(wraps - 1, p); }
  }

  lemma NoWrapSeen(c: Clock, m: Memory, prev: nat, next: nat, k: nat, full: nat)
    requires c.Valid() && Remembers(c, m, prev) && m.last < next < c.period && (next <= prev ==> 1 <= k)
    requires m.lastFull <= full == m.lastFull + k * c.period + next - prev
    ensures NextPrefix(c, m, next, full) == m.prefix + SeenPeriods(c, prev, next, k) * c.period
  {
    var p, delta := c.period, full - m.lastFull;
    MulSucc(k, p);
    if prev <= next {
      QuotientIs(delta, p, k);
    } else {
      PartShort(k, p, prev - next);
    }
    LessThanOne(delta, p);
  }

  /** A time in whole periods and a rest. */
  lemma Parts(t: nat, p: nat)
    requires 0 < p
    ensures t == t / p * p + t % p && t % p < p
  {
  }

  lemma MulDiff(a: nat, b: nat, p: nat)
    requires a <= b
    ensures (b - a) * p == b * p - a * p
  {
  }

  lemma QuotientOrder(t: nat, u: nat, p: nat)
    requires 0 < p && t < u
    ensures t / p <= u / p && (u % p <= t % p ==> t / p < u / p)
    ensures u == t + (u / p - t / p) * p + u % p - t % p
  {
    Parts(t, p);
    Parts(u, p);
    if u / p < t / p {
      MulOrder(u / p + 1, t / p, p);
      MulSucc(u / p, p);
    }
    MulDiff(t / p, u / p, p);
  }

  /** How far the stamp moves between two events at true times `t` and `u`. */
  function SeenGap(c: Clock, t: nat, u: nat): int
    requires c.Valid() && t < u
  {
    QuotientOrder(t, u, c.period);
    SeenPeriods(c, t % c.period, u % c.period, u / c.period - t / c.period) * c.period + u % c.period - t % c.period
  }

  /** For exact full stamps, any register and any gap. */
  lemma GapSeen(c: Clock, m: Memory, t: nat, u: nat)
    requires c.Valid() && Remembers(c, m, t % c.period) && m.lastFull == t < u
    ensures NextPrefix(c, m, u % c.period, u) + u % c.period == m.prefix + t % c.period + SeenGap(c, t, u)
  {
    var p := c.period;
    QuotientOrder(t, u, p);
    if u % p <= m.last {
      WrapSeen(c, m, t % p, u % p, u / p - t / p, u);
    } else {
      NoWrapSeen(c, m, t % p, u % p, u / p - t / p, u);
    }
  }

  /** The gap comes out right. */
  predicate GapIsRight(c: Clock, t: nat, u: nat)
    requires c.Valid() && t < u
  {
    var prev, next := t % c.period, u % c.period;
    || (u - t <= c.period && !(prev % c.register < next <= prev))
    || (c.period == WORD && (u - t) % WORD == 0 && prev < c.register)
  }

  lemma PeriodsApart(p: nat, prev: nat, next: nat, k: nat, gap: nat)
    requires 1 < p && prev < p && next < p && gap == k * p + next - prev && (next <= prev ==> 1 <= k)
    ensures gap <= p <==> k == if next <= prev then 1 else 0
    ensures gap % p == 0 <==> next == prev
  {
    MulSucc(k, p);
    if k >= 1 { MulSucc(k - 1, p); }
    if next < prev {
      if k >= 2 { MulGrows(k - 1, p); }
      QuotientIs(gap, p, k - 1);
      Parts(gap, p);
    } else {
      if k >= 1 { MulGrows(k, p); }
      if k >= 2 { MulGrows(k - 1, p); }
      QuotientIs(gap, p, k);
      Parts(gap, p);
    }
  }

  /** A gap comes out right exactly when it is at most one period and no wrap in it goes
      unnoticed, or the period is the whole word, the gap a multiple of it, and the register
      kept all of the low part. */
  lemma GapIsRightIff(c: Clock, t: nat, u: nat)
    requires c.Valid() && t < u
    ensures SeenGap(c, t, u) == u - t <==> GapIsRight(c, t, u)
  {
    var p, prev, next := c.period, t % c.period, u % c.period;
    QuotientOrder(t, u, p);
    var k := u / p - t / p;
    PeriodsApart(p, prev, next, k, u - t);
    MulOrder(SeenPeriods(c, prev, next, k), k, p);
    MulOrder(k, SeenPeriods(c, prev, next, k), p);
    KeptIff(prev, c.register);
  }

  /** With a register that holds the whole low part, gaps up to one period are exact, and one
      period is lost beyond that. */
  lemma WideGapSeen(c: Clock, t: nat, u: nat)
    requires c.Valid() && c.period <= c.register && t < u
    ensures SeenGap(c, t, u)
         == if u - t <= c.period || (c.period == WORD && (u - t) % WORD == 0) then u - t else u - t - c.period
  {
    var p, prev, next := c.period, t % c.period, u % c.period;
    QuotientOrder(t, u, p);
    var k := u / p - t / p;
    PeriodsApart(p, prev, next, k, u - t);
    KeptIff(prev, c.register);
    if k >= 1 { MulSucc(k - 1, p); }
  }

  // --- over whole streams of events ----------------------------------------------------------------

  /** Low parts are in range, and the full stamps do not decrease and are not zero. */
  ghost predicate IsStream(c: Clock, events: seq<Event>) {
    && c.Valid() && (forall i :: 0 <= i < |events| ==> events[i].ts < c.period && 0 < events[i].full)
    && (forall i, j :: 0 <= i < j < |events| ==> events[i].full <= events[j].full)
  }

  /** Memory after the first `n` events. */
  ghost function MemoryAfter(c: Clock, events: seq<Event>, n: nat): (m: Memory)
    requires IsStream(c, events) && n <= |events|
    ensures m.last < c.period
    ensures n == 0 ==> m == Memory(0, 0, 0)
    ensures n > 0 ==> m.lastFull == events[n - 1].full && Remembers(c, m, events[n - 1].ts)
  {
    if n == 0 then Memory(0, 0, 0)
    else
      RemainderBelow(events[n - 1].ts, c.register);
      Next(c, MemoryAfter(c, events, n - 1), events[n - 1].ts, events[n - 1].full)
  }

  /** The same in words of 64 bits, for events whose full time stamps may move either way. */
  ghost function MemoryAfter64(c: Clock, events: seq<Event>, n: nat): (m: Memory)
    requires c.Valid() && n <= |events|
    requires forall i :: 0 <= i < |events| ==> events[i].ts < c.period && events[i].full < U64
    ensures m.last < c.period && m.lastFull < U64
  {
    if n == 0 then Memory(0, 0, 0)
    else
      RemainderBelow(events[n - 1].ts, c.register);
      Next64(c, MemoryAfter64(c, events, n - 1), events[n - 1].ts, events[n - 1].full)
  }

  lemma WordsFollow(c: Clock, m: Memory, e: Event)
    requires c.Valid() && m.last < c.period && e.ts < c.period && m.lastFull <= e.full < U64
    requires NextPrefix(c, m, e.ts, e.full) < U64 && (m.lastFull == 0 ==> m.prefix == 0)
    ensures m.prefix < U64 && Next64(c, m, e.ts, e.full) == Next(c, m, e.ts, e.full)
  {
  }

  /** What is said below of streams holds of the words as long as the prefix fits them. */
  lemma {:induction false} StreamFits(c: Clock, events: seq<Event>, n: nat)
    requires IsStream(c, events) && n <= |events| && forall i :: 0 <= i < |events| ==> events[i].full < U64
    requires MemoryAfter(c, events, n).prefix < U64
    ensures MemoryAfter64(c, events, n) == MemoryAfter(c, events, n)
  {
    if n > 0 {
      WordsFollow(c, MemoryAfter(c, events, n - 1), events[n - 1]);
      StreamFits(c, events, n - 1);
    }
  }

  /** The extended stamp of an event. */
  ghost function Stamp(c: Clock, events: seq<Event>, k: nat): nat
    requires IsStream(c, events) && k < |events|
  {
    MemoryAfter(c, events, k + 1).prefix + events[k].ts
  }

  /** The prefix stays a multiple of the period. */
  lemma {:induction false} PrefixIsMultiple(c: Clock, events: seq<Event>, n: nat)
    requires IsStream(c, events) && n <= |events|
    ensures MemoryAfter(c, events, n).prefix % c.period == 0
  {
    if n == 0 {
      MultipleHasNoRemainder(0, c.period);
    } else {
      PrefixIsMultiple(c, events, n - 1);
      PrefixStays(c, MemoryAfter(c, events, n - 1), events[n - 1].ts, events[n - 1].full);
    }
  }

  lemma PrefixStays(c: Clock, m: Memory, ts: nat, full: nat)
    requires c.Valid() && m.last < c.period && ts < c.period && m.lastFull <= full && m.prefix % c.period == 0
    ensures NextPrefix(c, m, ts, full) % c.period == 0
  {
    var p := c.period;
    var q := m.prefix / p;
    Parts(m.prefix, p);
    if m.lastFull == 0 {
      MultipleHasNoRemainder(0, p);
    } else {
      var delta := full - m.lastFull;
      var room := (p - 1 - m.last + 1 + ts) % WORD;
      var wraps := (if delta > room then delta - room else delta) / p;
      var extra: nat := if ts <= m.last then (if wraps > 1 then wraps else 1)
                        else if delta > p - 1 then (AtLeastOne(delta, p); delta / p - 1) else 0;
      MulAdd(q, extra, p);
      if ts <= m.last { MulSucc(extra - 1, p); }
      MultipleHasNoRemainder(q + extra, p);
    }
  }

  lemma MulAdd(a: nat, b: nat, p: nat)
    ensures (a + b) * p == a * p + b * p
  {
  }

  /** In any stream, a stamp is above the one before it unless it falls back. */
  lemma StampAdvancesIff(c: Clock, events: seq<Event>, k: nat)
    requires IsStream(c, events) && 1 <= k < |events|
    ensures Stamp(c, events, k - 1) < Stamp(c, events, k) <==> !FallsBack(c, events[k - 1], events[k])
  {
    AdvancesIff(c, MemoryAfter(c, events, k), events[k - 1], events[k]);
  }

  /** The stamps of a stream strictly increase exactly when none of them falls back. */
  lemma StampsIncreaseIff(c: Clock, events: seq<Event>)
    requires IsStream(c, events)
    ensures (forall i, j :: 0 <= i < j < |events| ==> Stamp(c, events, i) < Stamp(c, events, j))
       <==> (forall i, j :: 0 <= i < j < |events| && j == i + 1 ==> !FallsBack(c, events[i], events[j]))
  {
    forall i, j | 0 <= i < j < |events| && j == i + 1
      ensures Stamp(c, events, i) < Stamp(c, events, j) <==> !FallsBack(c, events[i], events[j])
    {
      StampAdvancesIff(c, events, j);
    }
    if forall i, j :: 0 <= i < j < |events| && j == i + 1 ==> !FallsBack(c, events[i], events[j]) {
      forall i, j | 0 <= i < j < |events|
        ensures Stamp(c, events, i) < Stamp(c, events, j)
      {
        StampsClimb(c, events, i, j);
      }
    }
  }

  lemma {:induction false} StampsClimb(c: Clock, events: seq<Event>, i: nat, j: nat)
    requires IsStream(c, events) && i < j < |events|
    requires forall a, b :: 0 <= a < b < |events| && b == a + 1 ==> Stamp(c, events, a) < Stamp(c, events, b)
    ensures Stamp(c, events, i) < Stamp(c, events, j)
    decreases j
  {
    if i < j - 1 {
      StampsClimb(c, events, i, j - 1);
    }
  }

  /** With a register that holds the whole low part, no stamp ever falls back. */
  lemma WideRegisterNeverFallsBack(c: Clock, prev: Event, next: Event)
    requires c.Valid() && c.period <= c.register && prev.ts < c.period
    ensures !FallsBack(c, prev, next)
  {
    KeptIff(prev.ts, c.register);
  }

  /** The low parts are those of the full stamps, which strictly increase. */
  ghost predicate IsExact(c: Clock, events: seq<Event>) {
    && IsStream(c, events) && (forall i :: 0 <= i < |events| ==> events[i].ts == events[i].full % c.period)
    && (forall i, j :: 0 <= i < j < |events| ==> events[i].full < events[j].full)
  }

  /** What the stamps advance by over the first `k` gaps. */
  ghost function SeenSum(c: Clock, events: seq<Event>, k: nat): int
    requires IsExact(c, events) && k < |events|
  {
    if k == 0 then 0 else SeenSum(c, events, k - 1) + SeenGap(c, events[k - 1].full, events[k].full)
  }

  /** With exact full stamps, each stamp is the first one plus the gaps seen since. */
  lemma {:induction false} StreamSeen(c: Clock, events: seq<Event>, k: nat)
    requires IsExact(c, events) && k < |events|
    ensures Stamp(c, events, k) == Stamp(c, events, 0) + SeenSum(c, events, k)
  {
    if k > 0 {
      StreamSeen(c, events, k - 1);
      GapSeen(c, MemoryAfter(c, events, k), events[k - 1].full, events[k].full);
    }
  }

  /** All stamps keep their true distance from the first exactly when every gap comes out
      right. */
  lemma StreamIsRightIff(c: Clock, events: seq<Event>)
    requires IsExact(c, events) && events != []
    ensures (forall k :: 0 <= k < |events| ==>
        Stamp(c, events, k) - Stamp(c, events, 0) == events[k].full - events[0].full)
       <==> (forall i, j :: 0 <= i < j < |events| && j == i + 1 ==> GapIsRight(c, events[i].full, events[j].full))
  {
    forall i, j | 0 <= i < j < |events| && j == i + 1
      ensures Stamp(c, events, j) - Stamp(c, events, i) == events[j].full - events[i].full
         <==> GapIsRight(c, events[i].full, events[j].full)
    {
      StreamSeen(c, events, i);
      StreamSeen(c, events, j);
      GapIsRightIff(c, events[i].full, events[j].full);
    }
    if forall i, j :: 0 <= i < j < |events| && j == i + 1 ==> GapIsRight(c, events[i].full, events[j].full) {
      forall k | 0 <= k < |events|
        ensures Stamp(c, events, k) - Stamp(c, events, 0) == events[k].full - events[0].full
      {
        RightSoFar(c, events, k);
      }
    }
  }

  lemma {:induction false} RightSoFar(c: Clock, events: seq<Event>, k: nat)
    requires IsExact(c, events) && k < |events|
    requires forall i, j :: 0 <= i < j < |events| && j == i + 1 ==>
      Stamp(c, events, j) - Stamp(c, events, i) == events[j].full - events[i].full
    ensures Stamp(c, events, k) - Stamp(c, events, 0) == events[k].full - events[0].full
  {
    if k > 0 {
      RightSoFar(c, events, k - 1);
      assert Stamp(c, events, k) - Stamp(c, events, k - 1) == events[k].full - events[k - 1].full;
    }
  }

  // --- the register as shipped --------------------------------------------------------------------

  /** With the shipped types: two pulses about 1.4 seconds apart across a wrap of the 32-bit
      stamp, and the second one is placed 71 minutes before the first. */
  lemma ShippedRegisterLosesAWrap()
    ensures var events := [Event(4_294_000_000, 4_294_000_000), Event(432_704, 4_295_400_000)];
      IsExact(SHIPPED, events) && Stamp(SHIPPED, events, 1) + 4_293_567_296 == Stamp(SHIPPED, events, 0)
  {
    var events := [Event(4_294_000_000, 4_294_000_000), Event(432_704, 4_295_400_000)];
    assert MemoryAfter(SHIPPED, events, 1) == Memory(4_294_000_000, 4_294_000_000 % 0x1_0000, 0);
  }
}
