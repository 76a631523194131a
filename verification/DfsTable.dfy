/** Radar filters: pulses of the regulatory tables grouped into filter types, and the index that
    finds the types for the duration of a received pulse. */
module DfsTable {
  import opened CreditMath

  const MAX_RADAR_TYPES: nat := 32
  const MAX_RADAR_OVERLAP: nat := 16
  const DURATIONS: nat := 256
  const MAX_RADAR_FILTERS: nat := 10
  const START_MINPRI: nat := 1000000

  /** What pulses of one type have in common. */
  datatype Key = Key(dur: nat, numpulses: nat, mindur: nat, maxdur: nat)

  type Frequency = x: int | 0 < x witness 1

  /** A table entry; frequencies in hertz, offset and variation in microseconds. */
  datatype Pulse = Pulse(key: Key, id: nat, pulsefreq: Frequency, maxfreq: Frequency, meanoffset: nat, pulsevar: nat)

  datatype FilterType = FilterType(key: Key, filters: seq<Pulse>, minpri: nat)

  // --- rounding ----------------------------------------------------------------------------------

  /** Hundredths to the nearest whole, halves up; nothing below zero. */
  function Round(val: int): nat
  {
    if val < 0 then 0
    else if val - val / 100 * 100 < 50 then val / 100 else val / 100 + 1
  }

  lemma RoundIsNearest(val: nat)
    ensures -50 <= val - 100 * Round(val) < 50
  {
  }

  /** The shortest and longest repetition interval a filter looks for. */
  function MinPri(p: Pulse): nat
  {
    Round(100000000 / p.maxfreq - 100 * p.meanoffset - 100 * p.pulsevar)
  }

  function MaxPri(p: Pulse): nat
  {
    Round(100000000 / p.pulsefreq - 100 * p.meanoffset + 100 * p.pulsevar)
  }

  /** The shortest interval is, to the nearest microsecond, that of the highest frequency, less the
      offset and the variation; `q` is the first one in hundredths. Nothing is below zero. */
  lemma MinPriIsNearest(p: Pulse, q: nat)
    requires q * p.maxfreq <= 100000000 < (q + 1) * p.maxfreq
    ensures var lo := q - 100 * (p.meanoffset + p.pulsevar);
      if lo < 0 then MinPri(p) == 0 else -50 <= lo - 100 * MinPri(p) < 50
  {
    MulSucc(q, p.maxfreq);
    QuotientIs(100000000, p.maxfreq, q);
  }

  /** The longest is that of the lowest frequency, less the offset, with the variation on top. */
  lemma MaxPriIsNearest(p: Pulse, q: nat)
    requires q * p.pulsefreq <= 100000000 < (q + 1) * p.pulsefreq
    ensures var hi := q - 100 * p.meanoffset + 100 * p.pulsevar;
      if hi < 0 then MaxPri(p) == 0 else -50 <= hi - 100 * MaxPri(p) < 50
  {
    MulSucc(q, p.pulsefreq);
    QuotientIs(100000000, p.pulsefreq, q);
  }

  /** The interval contains the whole microseconds around the nominal ones. */
  lemma PriOrdered(p: Pulse)
    requires p.pulsefreq <= p.maxfreq
    ensures MinPri(p) <= MaxPri(p)
  {
    QuotientAntitone(100000000, p.pulsefreq, p.maxfreq);
    RoundMonotone(100000000 / p.maxfreq - 100 * p.meanoffset - 100 * p.pulsevar,
      100000000 / p.pulsefreq - 100 * p.meanoffset + 100 * p.pulsevar);
  }

  lemma RoundMonotone(a: int, b: int)
    requires a <= b
    ensures Round(a) <= Round(b)
  {
  }

  lemma QuotientAntitone(x: nat, a: nat, b: nat)
    requires 0 < a <= b
    ensures x / b <= x / a
  {
    var q, r := x / b, x / a;
    assert x == q * b + x % b && x == r * a + x % a;
    MulSucc(r, a);
    if r + 1 <= q {
      Grow(r + 1, q, a);
      Grow(a, b, q);
    }
  }

  lemma Grow(a: nat, b: nat, c: nat)
    requires a <= b
    ensures a * c <= b * c && c * a <= c * b
  {
    assert (b - a) * c >= 0;
  }

  // --- the grouping that is wanted --------------------------------------------------------------------

  /** The keys of the pulses, each at its first occurrence. */
  function Keys(pulses: seq<Pulse>): (r: seq<Key>)
  {
    if pulses == [] then []
    else
      var k, last := Keys(pulses[..|pulses| - 1]), pulses[|pulses| - 1].key;
      if last in k then k else k + [last]
  }

  lemma {:induction false} KeysAreDistinct(pulses: seq<Pulse>)
    ensures forall i, j :: 0 <= i < j < |Keys(pulses)| ==> Keys(pulses)[i] != Keys(pulses)[j]
    ensures forall p :: p in pulses ==> p.key in Keys(pulses)
  {
    if pulses != [] {
      KeysAreDistinct(pulses[..|pulses| - 1]);
    }
  }

  /** The pulses with a given key, in table order. */
  function OfKey(pulses: seq<Pulse>, key: Key): (r: seq<Pulse>)
    ensures forall p :: p in r <==> p in pulses && p.key == key
  {
    if pulses == [] then []
    else OfKey(pulses[..|pulses| - 1], key) + (if pulses[|pulses| - 1].key == key then [pulses[|pulses| - 1]] else [])
  }

  /** The least repetition interval among filters. */
  function LeastPri(filters: seq<Pulse>): (r: nat)
    ensures r <= START_MINPRI && forall p :: p in filters ==> r <= MinPri(p)
    ensures r == START_MINPRI || exists p :: p in filters && r == MinPri(p)
  {
    if filters == [] then START_MINPRI
    else
      var m, p := LeastPri(filters[..|filters| - 1]), filters[|filters| - 1];
      assert filters == filters[..|filters| - 1] + [p];
      if MinPri(p) < m then MinPri(p) else m
  }

  /** A pulse joins a type. */
  function Joined(t: FilterType, p: Pulse): FilterType
  {
    FilterType(t.key, t.filters + [p], if MinPri(p) < t.minpri then MinPri(p) else t.minpri)
  }

  /** The type of a key: its pulses, and the least of their repetition intervals. */
  function TypeOf(pulses: seq<Pulse>, key: Key): FilterType
  {
    FilterType(key, OfKey(pulses, key), LeastPri(OfKey(pulses, key)))
  }

  /** Every pulse is in the one type that has its key. */
  ghost predicate Grouped(types: seq<FilterType>, pulses: seq<Pulse>) {
    |types| == |Keys(pulses)| && forall n :: 0 <= n < |types| ==> types[n] == TypeOf(pulses, Keys(pulses)[n])
  }

  predicate Covers(key: Key, d: nat) {
    key.mindur <= d <= key.maxdur
  }

  /** The types that accept a duration, by number. */
  function Matching(keys: seq<Key>, d: nat): (r: seq<nat>)
    ensures |r| <= |keys|
  {
    if keys == [] then []
    else Matching(keys[..|keys| - 1], d) + (if Covers(keys[|keys| - 1], d) then [|keys| - 1] else [])
  }

  /** A linear scan over all types, in increasing order and without duplicates. */
  lemma {:induction false} MatchingIsScan(keys: seq<Key>, d: nat)
    ensures forall n :: n in Matching(keys, d) <==> 0 <= n < |keys| && keys[n].mindur <= d <= keys[n].maxdur
    ensures forall i, j :: 0 <= i < j < |Matching(keys, d)| ==> Matching(keys, d)[i] < Matching(keys, d)[j]
  {
    if keys != [] {
      MatchingIsScan(keys[..|keys| - 1], d);
      var m := Matching(keys[..|keys| - 1], d);
      assert forall i :: 0 <= i < |m| ==> m[i] in m;
    }
  }

  /** The index has room for the types. */
  ghost predicate Fits(keys: seq<Key>) {
    |keys| <= MAX_RADAR_TYPES && forall d: nat :: d < DURATIONS ==> |Matching(keys, d)| <= MAX_RADAR_OVERLAP
  }

  lemma {:induction false} FitsFront(keys: seq<Key>, n: nat)
    requires Fits(keys) && n <= |keys|
    ensures Fits(keys[..n])
    decreases |keys|
  {
    if n < |keys| {
      var front := keys[..|keys| - 1];
      assert forall d: nat :: d < DURATIONS ==> |Matching(front, d)| <= |Matching(keys, d)|;
      FitsFront(front, n);
      assert front[..n] == keys[..n];
    } else {
      assert keys[..n] == keys;
    }
  }

  lemma {:induction false} KeysGrow(pulses: seq<Pulse>, n: nat)
    requires n <= |pulses|
    ensures |Keys(pulses[..n])| <= |Keys(pulses)| && Keys(pulses[..n]) == Keys(pulses)[..|Keys(pulses[..n])|]
    decreases |pulses|
  {
    if n < |pulses| {
      KeysGrow(pulses[..|pulses| - 1], n);
      assert pulses[..|pulses| - 1][..n] == pulses[..n];
    } else {
      assert pulses[..n] == pulses;
    }
  }

  // --- one more pulse -------------------------------------------------------------------------------

  lemma OneMoreKey(pulses: seq<Pulse>, i: nat)
    requires i < |pulses|
    ensures Keys(pulses[..i + 1]) == if pulses[i].key in Keys(pulses[..i]) then Keys(pulses[..i])
      else Keys(pulses[..i]) + [pulses[i].key]
  {
    assert pulses[..i + 1][..i] == pulses[..i];
  }

  lemma OneMoreInType(pulses: seq<Pulse>, i: nat, key: Key)
    requires i < |pulses|
    ensures TypeOf(pulses[..i + 1], key) == if pulses[i].key == key then Joined(TypeOf(pulses[..i], key), pulses[i])
      else TypeOf(pulses[..i], key)
  {
    var filters, p := OfKey(pulses[..i], key), pulses[i];
    assert pulses[..i + 1][..i] == pulses[..i];
    assert (filters + [p])[..|filters|] == filters;
  }

  /** The new pulse goes into the type with its key. */
  lemma JoinType(types: seq<FilterType>, pulses: seq<Pulse>, i: nat, n: nat)
    requires i < |pulses| && Grouped(types, pulses[..i]) && n < |types| && types[n].key == pulses[i].key
    ensures Grouped(types[n := Joined(types[n], pulses[i])], pulses[..i + 1])
  {
    OneMoreKey(pulses, i);
    KeysAreDistinct(pulses[..i]);
    var keys := Keys(pulses[..i]);
    forall m | 0 <= m < |types|
      ensures types[n := Joined(types[n], pulses[i])][m] == TypeOf(pulses[..i + 1], keys[m])
    {
      OneMoreInType(pulses, i, keys[m]);
    }
  }

  /** The first pulse with its key opens a type. */
  lemma OpenType(types: seq<FilterType>, pulses: seq<Pulse>, i: nat)
    requires i < |pulses| && Grouped(types, pulses[..i]) && pulses[i].key !in Keys(pulses[..i])
    ensures Grouped(types + [Joined(FilterType(pulses[i].key, [], START_MINPRI), pulses[i])], pulses[..i + 1])
  {
    OneMoreKey(pulses, i);
    NoneYet(pulses[..i], pulses[i].key);
    var keys := Keys(pulses[..i + 1]);
    forall m | 0 <= m <= |types|
      ensures (types + [Joined(FilterType(pulses[i].key, [], START_MINPRI), pulses[i])])[m]
        == TypeOf(pulses[..i + 1], keys[m])
    {
      OneMoreInType(pulses, i, keys[m]);
    }
  }

  /** Some type has more pulses than places for its filters. */
  ghost predicate Overruns(pulses: seq<Pulse>) {
    exists key: Key :: |OfKey(pulses, key)| > MAX_RADAR_FILTERS
  }

  /** The filter of a pulse is written behind the last place exactly when its type is full, and
      a type once overrun stays so. */
  lemma OverrunsGrow(pulses: seq<Pulse>, i: nat)
    requires i < |pulses|
    ensures Overruns(pulses[..i + 1])
      <==> Overruns(pulses[..i]) || |OfKey(pulses[..i], pulses[i].key)| >= MAX_RADAR_FILTERS
  {
    assert pulses[..i + 1][..i] == pulses[..i];
    if Overruns(pulses[..i + 1]) {
      var key: Key :| |OfKey(pulses[..i + 1], key)| > MAX_RADAR_FILTERS;
      assert key == pulses[i].key || OfKey(pulses[..i], key) == OfKey(pulses[..i + 1], key);
    }
    if Overruns(pulses[..i]) {
      var key: Key :| |OfKey(pulses[..i], key)| > MAX_RADAR_FILTERS;
      assert |OfKey(pulses[..i + 1], key)| > MAX_RADAR_FILTERS;
    }
    if |OfKey(pulses[..i], pulses[i].key)| >= MAX_RADAR_FILTERS {
      assert |OfKey(pulses[..i + 1], pulses[i].key)| > MAX_RADAR_FILTERS;
    }
  }

  lemma NoneYet(pulses: seq<Pulse>, key: Key)
    requires key !in Keys(pulses)
    ensures OfKey(pulses, key) == []
  {
    KeysAreDistinct(pulses);
    if OfKey(pulses, key) != [] { assert OfKey(pulses, key)[0] in OfKey(pulses, key); }
  }

  /** The number of filters a type has. */
  lemma PlaceIs(types: seq<FilterType>, pulses: seq<Pulse>, key: Key)
    requires Grouped(types, pulses)
    ensures forall n :: 0 <= n < |types| && types[n].key == key ==> |types[n].filters| == |OfKey(pulses, key)|
    ensures (forall n :: 0 <= n < |types| ==> types[n].key != key) ==> OfKey(pulses, key) == []
  {
    if forall n :: 0 <= n < |types| ==> types[n].key != key {
      assert forall n :: 0 <= n < |types| ==> types[n].key == Keys(pulses)[n];
      NoneYet(pulses, key);
    }
  }

  // --- in place ---------------------------------------------------------------------------------------

  /** A row lists the given numbers and -1 from there on. */
  ghost predicate RowIs(table: array2<int>, d: nat, s: seq<nat>)
    requires table.Length0 == DURATIONS && table.Length1 == MAX_RADAR_OVERLAP && d < DURATIONS
    reads table
  {
    && |s| <= MAX_RADAR_OVERLAP
    && (forall k :: 0 <= k < |s| ==> table[d, k] == s[k])
    && (forall k :: |s| <= k < MAX_RADAR_OVERLAP ==> table[d, k] == -1)
  }

  class Radars {
    const table: array2<int>
    var types: seq<FilterType>

    ghost predicate Sized()
    {
      table.Length0 == DURATIONS && table.Length1 == MAX_RADAR_OVERLAP
    }

    /** Rows below `m` already know one type more than the others. */
    ghost predicate Indexed(keys: seq<Key>, front: seq<Key>, m: nat)
      requires Sized()
      reads table
    {
      && (forall d: nat :: d < m && d < DURATIONS ==> RowIs(table, d, Matching(keys, d)))
      && (forall d: nat :: m <= d < DURATIONS ==> RowIs(table, d, Matching(front, d)))
    }

    ghost predicate IndexOf(keys: seq<Key>)
      requires Sized()
      reads table
    {
      forall d: nat :: d < DURATIONS ==> RowIs(table, d, Matching(keys, d))
    }

    method ClearTable()
      requires Sized()
      modifies table
      ensures IndexOf([])
    {
      forall n, i | 0 <= n < DURATIONS && 0 <= i < MAX_RADAR_OVERLAP {
        table[n, i] := -1;
      }
    }

    /** The first free place of a row. */
    method FindFree(d: nat, ghost s: seq<nat>) returns (stop: bool, tableindex: nat)
      requires Sized() && d < DURATIONS && RowIs(table, d, s)
      ensures tableindex == |s| && stop == (|s| < MAX_RADAR_OVERLAP)
    {
      stop, tableindex := false, 0;
      while tableindex < MAX_RADAR_OVERLAP && !stop
        invariant tableindex <= |s| && (stop ==> tableindex == |s| < MAX_RADAR_OVERLAP)
        decreases MAX_RADAR_OVERLAP - tableindex, !stop
      {
        if table[d, tableindex] == -1 {
          stop := true;
        } else {
          tableindex := tableindex + 1;
        }
      }
    }

    /** Enters type `n` in one row. */
    method EnterRow(d: nat, n: nat, ghost s: seq<nat>) returns (ok: bool)
      requires Sized() && d < DURATIONS && RowIs(table, d, s)
      modifies table
      ensures ok == (|s| < MAX_RADAR_OVERLAP) && (ok ==> RowIs(table, d, s + [n]))
      ensures forall e, k :: 0 <= e < DURATIONS && e != d && 0 <= k < MAX_RADAR_OVERLAP ==>
        table[e, k] == old(table[e, k])
    {
      var stop, tableindex := FindFree(d, s);
      if stop {
        table[d, tableindex] := n;
      }
      ok := stop;
    }

    /** Enters a new type in the rows of all its durations. */
    method EnterType(key: Key, n: nat, ghost keys: seq<Key>) returns (ok: bool)
      requires Sized() && |keys| == n + 1 && keys[n] == key && key.maxdur < DURATIONS
      requires IndexOf(keys[..n])
      modifies table
      ensures ok ==> IndexOf(keys)
      ensures !ok ==> exists d: nat :: d < DURATIONS && |Matching(keys, d)| > MAX_RADAR_OVERLAP
    {
      ok := true;
      var i := key.mindur;
      if key.mindur > key.maxdur {
        assert forall d: nat :: !Covers(key, d);
        return;
      }
      while i <= key.maxdur
        invariant key.mindur <= i <= key.maxdur + 1 && Indexed(keys, keys[..n], i)
      {
        ghost var s := Matching(keys[..n], i);
        ok := EnterRow(i, n, s);
        if !ok {
          assert |Matching(keys, i)| == |s| + 1;
          return;
        }
        i := i + 1;
      }
    }

    /** The type with a given key, if there is one. */
    method FindType(key: Key) returns (n: nat)
      ensures n <= |types| && (n < |types| ==> types[n].key == key)
      ensures forall m :: 0 <= m < n ==> types[m].key != key
    {
      n := 0;
      while n < |types|
        invariant 0 <= n <= |types| && forall m :: 0 <= m < n ==> types[m].key != key
      {
        if types[n].key == key {
          return;
        }
        n := n + 1;
      }
    }

    /** One pulse of the regulatory table. */
    method AddPulse(pulses: seq<Pulse>, i: nat) returns (ok: bool, place: nat)
      requires Sized() && i < |pulses| && forall j :: 0 <= j < |pulses| ==> pulses[j].key.maxdur < DURATIONS
      requires Grouped(types, pulses[..i]) && IndexOf(Keys(pulses[..i])) && |types| <= MAX_RADAR_TYPES
      modifies this`types, table
      ensures |types| <= MAX_RADAR_TYPES
      ensures ok ==> Grouped(types, pulses[..i + 1]) && IndexOf(Keys(pulses[..i + 1]))
      ensures !ok ==> !Fits(Keys(pulses[..i + 1]))
      ensures ok ==> place == |OfKey(pulses[..i], pulses[i].key)|
    {
      OneMoreKey(pulses, i);
      PlaceIs(types, pulses[..i], pulses[i].key);
      var p := pulses[i];
      place := 0;
      var n := FindType(p.key);
      ok := true;
      if n < |types| {
        JoinType(types, pulses, i, n);
        place := |types[n].filters|;
        types := types[n := Joined(types[n], p)];
        return;
      }
      if |types| + 1 > MAX_RADAR_TYPES {
        return false, place;
      }
      ok := EnterType(p.key, n, Keys(pulses[..i + 1]));
      if ok {
        OpenType(types, pulses, i);
        types := types + [Joined(FilterType(p.key, [], START_MINPRI), p)];
      }
    }

    /** Groups the pulses and builds the index; fails exactly when there are too many types, or
        too many for one duration. Nothing in it notices a filter that is written behind the
        places of its type, which happens exactly when a type has more pulses than places. */
    method InitRadarFilters(pulses: seq<Pulse>) returns (ok: bool, overrun: bool)
      requires Sized() && forall j :: 0 <= j < |pulses| ==> pulses[j].key.maxdur < DURATIONS
      modifies this`types, table
      ensures ok ==> Grouped(types, pulses) && IndexOf(Keys(pulses))
      ensures ok <==> Fits(Keys(pulses))
      ensures ok ==> (overrun <==> Overruns(pulses))
    {
      types, overrun := [], false;
      ClearTable();
      var i := 0;
      while i < |pulses|
        invariant 0 <= i <= |pulses| && Grouped(types, pulses[..i]) && IndexOf(Keys(pulses[..i]))
          && |types| <= MAX_RADAR_TYPES
        invariant overrun <==> Overruns(pulses[..i])
      {
        var place;
        ok, place := AddPulse(pulses, i);
        OverrunsGrow(pulses, i);
        if !ok {
          KeysGrow(pulses, i + 1);
          if Fits(Keys(pulses)) { FitsFront(Keys(pulses), |Keys(pulses[..i + 1])|); }
          return;
        }
        overrun := overrun || place >= MAX_RADAR_FILTERS;
        i := i + 1;
      }
      assert pulses[..i] == pulses;
      ok := true;
    }

    /** The scan for a received pulse: entries of the row up to the first -1. */
    method Scan(dur: nat, ghost keys: seq<Key>) returns (visited: seq<int>)
      requires Sized() && dur < DURATIONS && IndexOf(keys)
      ensures |visited| == |Matching(keys, dur)|
      ensures forall k :: 0 <= k < |visited| ==> visited[k] == Matching(keys, dur)[k]
    {
      visited := [];
      var tabledepth := 0;
      ghost var s := Matching(keys, dur);
      assert RowIs(table, dur, s);
      while tabledepth < MAX_RADAR_OVERLAP && table[dur, tabledepth] != -1
        invariant 0 <= tabledepth == |visited| <= |s| && forall k :: 0 <= k < tabledepth ==> visited[k] == s[k]
      {
        visited := visited + [table[dur, tabledepth]];
        tabledepth := tabledepth + 1;
      }
    }
  }
}
