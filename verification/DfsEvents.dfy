/** The pool of radar events: every event is at any time in exactly one of three queues. */
module DfsEvents {
  import opened SeqFacts
  import opened Stailq

  const DFS_MAX_EVENTS: nat := 1024
  const MAX_EVENTS: nat := 100

  /** What a report says about a pulse. */
  datatype Info = Info(rssi: nat, dur: nat, ts: nat, fullTs: nat, chanindex: nat)

  const NO_INFO := Info(0, 0, 0, 0, 0)

  ghost predicate Apart(a: Head, b: Head)
    reads a, b
  {
    a != b && forall x :: x in a.cells ==> x !in b.cells
  }

  lemma CellsAre(h: Head)
    requires h.Valid()
    ensures forall x :: x in h.cells <==> x == h.anchor || x in h.Elems()
  {
    assert h.cells == [h.cells[0]] + h.Elems();
  }

  /** Takes the first element of one queue to the end of another. */
  method Move(from: Head, to: Head) returns (event: Link)
    requires from.Valid() && to.Valid() && Apart(from, to) && from.Elems() != []
    modifies from`last, from`cells, from.anchor, to`last, to`cells, to.last, from.cells[1]
    ensures from.Valid() && to.Valid() && Apart(from, to)
    ensures event == old(from.Elems())[0] && from.Elems() == old(from.Elems())[1..]
    ensures to.Elems() == old(to.Elems()) + [event]
  {
    var first := from.First();
    event := first;
    ghost var fc, tc := from.cells, to.cells;
    CellsAre(from);
    CellsAre(to);
    HeadIsApart(from);
    assert from.anchor in fc && from.anchor !in tc && event in fc && event !in tc;
    from.RemoveHead();
    assert to.Valid();
    CellsAre(from);
    assert forall x :: x in from.cells ==> x in fc && x != event;
    assert event !in from.cells && to.last in tc && to.last !in from.cells;
    to.InsertTail(event);
    CellsAre(to);
    assert forall x :: x in to.cells ==> x in tc || x == event;
  }

  lemma HeadIsApart(h: Head)
    requires h.Valid() && h.Elems() != []
    ensures h.Elems()[0] !in h.Elems()[1..] && h.Elems()[0] != h.anchor
  {
    assert h.cells[0] != h.cells[1];
    forall i | 1 <= i < |h.Elems()|
      ensures h.Elems()[i] != h.Elems()[0]
    {
      assert h.cells[1] != h.cells[i + 1];
    }
  }

  /** Every event is in exactly one of the three queues. */
  ghost predicate Pool(a: Head, b: Head, c: Head, all: seq<Link>)
    reads a, b, c, a.cells, b.cells, c.cells
  {
    && a.Valid() && b.Valid() && c.Valid() && Apart(a, b) && Apart(a, c) && Apart(b, c)
    && (forall x :: x in all ==> x in a.Elems() || x in b.Elems() || x in c.Elems())
    && (forall x :: x in a.Elems() ==> x in all)
    && (forall x :: x in b.Elems() ==> x in all)
    && (forall x :: x in c.Elems() ==> x in all)
    && |a.Elems()| + |b.Elems()| + |c.Elems()| == |all|
  }

  /** A move between two queues of the pool keeps the pool and the third queue. */
  method Shift(from: Head, to: Head, ghost third: Head, ghost all: seq<Link>) returns (event: Link)
    requires Pool(from, to, third, all) && from.Elems() != []
    modifies from`last, from`cells, from.anchor, to`last, to`cells, to.anchor, all
    ensures Pool(from, to, third, all) && third.Elems() == old(third.Elems())
    ensures event == old(from.Elems())[0] && from.Elems() == old(from.Elems())[1..]
    ensures to.Elems() == old(to.Elems()) + [event]
  {
    ghost var f, t, cells := from.Elems(), to.Elems(), third.cells;
    CellsAre(from);
    CellsAre(to);
    CellsAre(third);
    assert f[0] == from.cells[1] && from.anchor in from.cells && from.anchor !in cells;
    assert to.last in to.cells && to.last !in cells && f[0] in from.cells && f[0] !in cells;
    event := Move(from, to);
    assert third.Valid() && third.cells == cells;
    CellsAre(from);
    CellsAre(to);
    assert f == [event] + from.Elems();
  }

  /** A new event joins the pool at the end of the first queue. */
  method Provide(a: Head, ghost b: Head, ghost c: Head, ghost all: seq<Link>, event: Link)
    requires Pool(a, b, c, all) && event !in a.cells && event !in b.cells && event !in c.cells
    modifies a`last, a`cells, a.last, event
    ensures Pool(a, b, c, all + [event]) && b.Elems() == old(b.Elems()) && c.Elems() == old(c.Elems())
    ensures forall x :: x in a.cells ==> x in old(a.cells) || x == event
  {
    ghost var bs, cs, cells := b.cells, c.cells, a.cells;
    CellsAre(a);
    assert a.last in cells && a.last !in bs && a.last !in cs;
    a.InsertTail(event);
    assert b.Valid() && c.Valid() && b.cells == bs && c.cells == cs;
    CellsAre(a);
  }

  // --- what the queued events report -----------------------------------------------------------

  ghost predicate Knows(info: map<Link, Info>, q: seq<Link>) {
    forall x :: x in q ==> x in info
  }

  /** The reports in the events of a queue, in order. */
  function Reports(info: map<Link, Info>, q: seq<Link>): (r: seq<Info>)
    requires Knows(info, q)
    ensures |r| == |q|
  {
    if q == [] then [] else [info[q[0]]] + Reports(info, q[1..])
  }

  lemma {:induction false} ReportsAppend(info: map<Link, Info>, q: seq<Link>, e: Link)
    requires Knows(info, q) && e in info
    ensures Reports(info, q + [e]) == Reports(info, q) + [info[e]]
  {
    if q == [] {
      assert q + [e] == [e] && [e][1..] == [];
    } else {
      assert (q + [e])[1..] == q[1..] + [e];
      ReportsAppend(info, q[1..], e);
    }
  }

  lemma {:induction false} ReportsKept(info: map<Link, Info>, q: seq<Link>, e: Link, i: Info)
    requires Knows(info, q) && e !in q
    ensures Reports(info[e := i], q) == Reports(info, q)
  {
    if q != [] { ReportsKept(info, q[1..], e, i); }
  }

  /** Filling an event and queueing it adds its report. */
  lemma ReportsFilled(info: map<Link, Info>, q: seq<Link>, e: Link, i: Info)
    requires Knows(info, q) && e !in q
    ensures Reports(info[e := i], q + [e]) == Reports(info, q) + [i]
  {
    ReportsKept(info, q, e, i);
    ReportsAppend(info[e := i], q, e);
  }

  /** An element of one queue is in no other. */
  lemma ElsewhereNot(a: Head, b: Head)
    requires a.Valid() && b.Valid() && Apart(a, b)
    ensures forall x :: x in a.Elems() ==> x !in b.Elems()
  {
    CellsAre(a);
    CellsAre(b);
  }

  class Dfs {
    const eventq: Head
    const radarq: Head
    const arq: Head
    var info: map<Link, Info>
    ghost var events: seq<Link>

    ghost predicate Valid()
      reads this, eventq, radarq, arq, eventq.cells, radarq.cells, arq.cells
    {
      Pool(eventq, radarq, arq, events) && Knows(info, events)
    }

    ghost function Radar(): seq<Info>
      requires Valid()
      reads this, eventq, radarq, arq, eventq.cells, radarq.cells, arq.cells
    {
      Reports(info, radarq.Elems())
    }

    ghost function Ar(): seq<Info>
      requires Valid()
      reads this, eventq, radarq, arq, eventq.cells, radarq.cells, arq.cells
    {
      Reports(info, arq.Elems())
    }

    /** All events start out free. */
    constructor Attach()
      ensures Valid() && |events| == |eventq.Elems()| == DFS_MAX_EVENTS && Radar() == Ar() == []
    {
      eventq := new Head();
      radarq := new Head();
      arq := new Head();
      info := map[];
      events := [];
      new;
      var i := 0;
      while i < DFS_MAX_EVENTS
        invariant 0 <= i <= DFS_MAX_EVENTS && Valid() && |events| == i
        invariant radarq.Elems() == arq.Elems() == [] && fresh(eventq) && forall x :: x in eventq.cells ==> fresh(x)
      {
        assert eventq.last in eventq.cells;
        AddEvent();
        i := i + 1;
      }
    }

    method AddEvent()
      requires Valid()
      modifies this`info, this`events, eventq`last, eventq`cells, eventq.last
      ensures Valid() && |events| == old(|events|) + 1
      ensures radarq.Elems() == old(radarq.Elems()) && arq.Elems() == old(arq.Elems())
      ensures forall x :: x in eventq.cells ==> x in old(eventq.cells) || fresh(x)
    {
      var event := new Link();
      Provide(eventq, radarq, arq, events, event);
      events, info := events + [event], info[event := NO_INFO];
    }

    /** Fills a free event and queues it. */
    method Queue(work: Head, ghost third: Head, report: Info)
      requires Pool(eventq, work, third, events) && Knows(info, events) && eventq.Elems() != []
      modifies this`info, eventq`last, eventq`cells, eventq.anchor, work`last, work`cells, work.anchor, events
      ensures Pool(eventq, work, third, events) && Knows(info, events)
      ensures eventq.Elems() == old(eventq.Elems())[1..] && third.Elems() == old(third.Elems())
      ensures Reports(info, work.Elems()) == old(Reports(info, work.Elems())) + [report]
      ensures Reports(info, third.Elems()) == old(Reports(info, third.Elems()))
    {
      ghost var queued, others := work.Elems(), third.Elems();
      ElsewhereNot(eventq, work);
      ElsewhereNot(eventq, third);
      var event := Shift(eventq, work, third, events);
      ReportsFilled(info, queued, event, report);
      ReportsKept(info, others, event, report);
      info := info[event := report];
    }

    /** A report from the target takes a free event to the end of one of the work queues; without
        a free event it is dropped. */
    method QueuePhyerr(isAr: bool, report: Info)
      requires Valid()
      modifies this`info, eventq, radarq, arq, eventq.anchor, radarq.anchor, arq.anchor, events
      ensures Valid() && events == old(events)
      ensures eventq.Elems() == if old(eventq.Elems()) == [] then [] else old(eventq.Elems())[1..]
      ensures Radar() == old(Radar()) + (if old(eventq.Elems()) != [] && !isAr then [report] else [])
      ensures Ar() == old(Ar()) + (if old(eventq.Elems()) != [] && isAr then [report] else [])
    {
      var empty := eventq.Empty();
      if empty {
        return;
      }
      if isAr {
        Queue(arq, radarq, report);
      } else {
        Queue(radarq, arq, report);
      }
    }

    /** Takes the first event of a work queue, returns it to the free ones, and gives what it
        reported. */
    method Take(work: Head, ghost third: Head) returns (re: Info)
      requires Pool(work, eventq, third, events) && Knows(info, events) && work.Elems() != []
      modifies this`info, eventq`last, eventq`cells, eventq.anchor, work`last, work`cells, work.anchor, events
      ensures Pool(work, eventq, third, events) && Knows(info, events)
      ensures third.Elems() == old(third.Elems()) && work.Elems() == old(work.Elems())[1..]
      ensures eventq.Elems() == old(eventq.Elems()) + [old(work.Elems())[0]]
      ensures old(Reports(info, work.Elems())) == [re] + Reports(info, work.Elems())
      ensures info == old(info)[old(work.Elems())[0] := NO_INFO]
      ensures Reports(info, third.Elems()) == old(Reports(info, third.Elems()))
    {
      ghost var queued, others := work.Elems(), third.Elems();
      ElsewhereNot(work, third);
      HeadIsApart(work);
      var event := Shift(work, eventq, third, events);
      re := info[event];
      ReportsKept(info, queued[1..], event, NO_INFO);
      ReportsKept(info, others, event, NO_INFO);
      info := info[event := NO_INFO];
    }

    /** Empties a work queue; the reports come out in order. */
    method TakeAll(work: Head, ghost third: Head) returns (processed: seq<Info>)
      requires Pool(work, eventq, third, events) && Knows(info, events)
      modifies this`info, eventq`last, eventq`cells, eventq.anchor, work`last, work`cells, work.anchor, events
      ensures Pool(work, eventq, third, events) && Knows(info, events)
      ensures third.Elems() == old(third.Elems()) && work.Elems() == []
      ensures eventq.Elems() == old(eventq.Elems()) + old(work.Elems())
      ensures processed == old(Reports(info, work.Elems()))
        && Reports(info, third.Elems()) == old(Reports(info, third.Elems()))
    {
      processed := [];
      ghost var thirds, free, reports := third.Elems(), eventq.Elems() + work.Elems(), Reports(info, work.Elems());
      ghost var thirdReports := Reports(info, thirds);
      var empty := work.Empty();
      while !empty
        invariant Pool(work, eventq, third, events) && Knows(info, events) && empty == (work.Elems() == [])
        invariant third.Elems() == thirds && Reports(info, thirds) == thirdReports
        invariant eventq.Elems() + work.Elems() == free && processed + Reports(info, work.Elems()) == reports
        decreases |work.Elems()|
      {
        MoveHead(eventq.Elems(), work.Elems());
        var re := Take(work, third);
        Regroup(processed, [re], Reports(info, work.Elems()));
        processed := processed + [re];
        empty := work.Empty();
      }
    }

    /** The AR events are all processed, in order, and returned. */
    method ProcessAr() returns (processed: seq<Info>)
      requires Valid()
      modifies this`info, eventq, arq, eventq.anchor, arq.anchor, events
      ensures Valid() && processed == old(Ar()) && Ar() == [] && Radar() == old(Radar())
      ensures eventq.Elems() == old(eventq.Elems()) + old(arq.Elems())
    {
      processed := TakeAll(arq, radarq);
    }

    method ResetArq()
      requires Valid()
      modifies this`info, eventq, arq, eventq.anchor, arq.anchor, events
      ensures Valid() && Ar() == [] && Radar() == old(Radar())
      ensures eventq.Elems() == old(eventq.Elems()) + old(arq.Elems())
    {
      var dropped := TakeAll(arq, radarq);
    }

    method ResetRadarq()
      requires Valid()
      modifies this`info, eventq, radarq, eventq.anchor, radarq.anchor, events
      ensures Valid() && Radar() == [] && Ar() == old(Ar())
      ensures eventq.Elems() == old(eventq.Elems()) + old(radarq.Elems())
    {
      var dropped := TakeAll(radarq, arq);
    }

    /** Takes events in order until a verdict stops it, a bound is reached, or none are left. */
    method TakeSome(work: Head, ghost third: Head, bang: bool, verdicts: seq<bool>)
      returns (processed: seq<Info>, retval: bool)
      requires Pool(work, eventq, third, events) && Knows(info, events) && |verdicts| == MAX_EVENTS
      modifies this`info, eventq`last, eventq`cells, eventq.anchor, work`last, work`cells, work.anchor, events
      ensures Pool(work, eventq, third, events) && Knows(info, events)
      ensures third.Elems() == old(third.Elems()) && Reports(info, third.Elems()) == old(Reports(info, third.Elems()))
      ensures processed + Reports(info, work.Elems()) == old(Reports(info, work.Elems())) && |processed| <= MAX_EVENTS
      ensures Stopped(bang, verdicts, |processed|, retval)
      ensures work.Elems() == [] || |processed| == MAX_EVENTS || retval
    {
      processed, retval := [], bang;
      ghost var thirds, reports := third.Elems(), Reports(info, work.Elems());
      ghost var thirdReports := Reports(info, thirds);
      var empty := work.Empty();
      while !empty && !retval && |processed| < MAX_EVENTS
        invariant Pool(work, eventq, third, events) && Knows(info, events) && empty == (work.Elems() == [])
        invariant third.Elems() == thirds && Reports(info, thirds) == thirdReports
        invariant processed + Reports(info, work.Elems()) == reports && |processed| <= MAX_EVENTS
        invariant Stopped(bang, verdicts, |processed|, retval)
        decreases MAX_EVENTS - |processed|
      {
        var re := Take(work, third);
        Regroup(processed, [re], Reports(info, work.Elems()));
        StoppedStep(bang, verdicts, |processed|);
        processed := processed + [re];
        retval := verdicts[|processed| - 1];
        empty := work.Empty();
      }
    }

    /** Radar events are processed in order until one shows a radar, a bound is reached, or the
        queue is empty; the verdicts on them are given in order. */
    method ProcessRadar(bang: bool, verdicts: seq<bool>) returns (processed: seq<Info>, retval: bool)
      requires Valid() && |verdicts| == MAX_EVENTS
      modifies this`info, eventq, radarq, eventq.anchor, radarq.anchor, events
      ensures Valid() && Ar() == old(Ar())
      ensures processed + Radar() == old(Radar()) && |processed| <= MAX_EVENTS
      ensures Stopped(bang, verdicts, |processed|, retval)
      ensures Radar() == [] || |processed| == MAX_EVENTS || retval
    {
      processed, retval := TakeSome(radarq, arq, bang, verdicts);
    }
  }

  /** After `n` events a radar has been found exactly when the last verdict says so, and none
      before it did; a simulated radar stops at once. */
  ghost predicate Stopped(bang: bool, verdicts: seq<bool>, n: nat, found: bool) {
    && n <= |verdicts|
    && (if bang then n == 0 && found
        else found == (n > 0 && verdicts[n - 1]) && forall k :: 0 <= k < n - 1 ==> !verdicts[k])
  }

  lemma StoppedStep(bang: bool, verdicts: seq<bool>, n: nat)
    requires Stopped(bang, verdicts, n, false) && n < |verdicts|
    ensures Stopped(bang, verdicts, n + 1, verdicts[n])
  {
  }
}
