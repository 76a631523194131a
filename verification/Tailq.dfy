/** The doubly-linked tail queue macros, in place. A pointer to a link field is modelled by the
    object that holds the field. The head has the layout of an element, as the macros that
    look backwards rely on: its `next` is the first pointer, its `prev` the pointer to the
    last link. */
module Tailq {
  import opened SeqFacts

  class DLink {
    var next: DLink?
    var prev: DLink?

    constructor ()
      ensures next == null && prev == null
    {
      next, prev := null, null;
    }
  }

  /** The links lead through `cells` one by one and end after the last; every cell but the
      first points back to the one before it, and the first one to the last. */
  ghost predicate Chained(cells: seq<DLink>)
    reads cells
  {
    && cells != [] && Distinct(cells)
    && (forall i, j :: 0 <= i < j < |cells| && j == i + 1 ==> cells[i].next == cells[j] && cells[j].prev == cells[i])
    && cells[|cells| - 1].next == null && cells[0].prev == cells[|cells| - 1]
  }

  /** The links of a former chain, but for those between positions `k` and `m` and the one
      from the anchor to the end. */
  ghost predicate LinksBut(cells: seq<DLink>, k: int, m: int)
    reads cells
  {
    && Distinct(cells)
    && (forall i, j :: 0 <= i < j < |cells| && j == i + 1 && (i < k || m <= i) ==>
        cells[i].next == cells[j] && cells[j].prev == cells[i])
    && (cells != [] && m < |cells| ==> cells[|cells| - 1].next == null)
  }

  lemma ChainedInserted(before: seq<DLink>, now: seq<DLink>, k: nat, elm: DLink)
    requires 0 < k <= |before| && LinksBut(before, k - 1, k) && elm !in before && now == Inserted(before, k, elm)
    requires before[k - 1].next == elm && elm.prev == before[k - 1]
    requires if k < |before| then elm.next == before[k] && before[k].prev == elm else elm.next == null
    requires now[0].prev == now[|now| - 1]
    ensures Chained(now)
  {
    forall i, j | 0 <= i < j < |now|
      ensures now[i] != now[j] && (j == i + 1 ==> now[i].next == now[j] && now[j].prev == now[i])
    {
      assert now[i] == if i < k then before[i] else if i == k then elm else before[i - 1];
      assert now[j] == if j < k then before[j] else if j == k then elm else before[j - 1];
    }
  }

  lemma ChainedCut(before: seq<DLink>, now: seq<DLink>, m: nat, n: nat)
    requires 0 < m < n <= |before| && LinksBut(before, m - 1, n) && now == Cut(before, m, n)
    requires if n < |before| then before[m - 1].next == before[n] && before[n].prev == before[m - 1]
      else before[m - 1].next == null
    requires now[0].prev == now[|now| - 1]
    ensures Chained(now)
  {
    forall i, j | 0 <= i < j < |now|
      ensures now[i] != now[j] && (j == i + 1 ==> now[i].next == now[j] && now[j].prev == now[i])
    {
      assert now[i] == if i < m then before[i] else before[i + (n - m)];
      assert now[j] == if j < m then before[j] else before[j + (n - m)];
    }
  }

  class DHead {
    const anchor: DLink
    /** The anchor followed by the elements. */
    ghost var cells: seq<DLink>

    ghost predicate Valid()
      reads this, cells
    {
      Chained(cells) && cells[0] == anchor
    }

    ghost function Elems(): seq<DLink>
      reads this
      requires cells != []
    {
      cells[1..]
    }

    constructor ()
      ensures Valid() && Elems() == [] && fresh(anchor)
    {
      var link := new DLink();
      anchor := link;
      cells := [link];
      new;
      anchor.prev := anchor;
    }

    method Empty() returns (r: bool)
      requires Valid()
      ensures r == (Elems() == [])
    {
      r := anchor.next == null;
      assert |cells| > 1 ==> cells[0].next == cells[1];
    }

    method First() returns (r: DLink?)
      requires Valid()
      ensures r == if Elems() == [] then null else Elems()[0]
    {
      r := anchor.next;
      assert |cells| > 1 ==> cells[0].next == cells[1];
    }

    /** Reads the last link as if it were a head. */
    method Last() returns (r: DLink?)
      requires Valid()
      ensures r == if Elems() == [] then null else Elems()[|Elems()| - 1]
    {
      ghost var n := |cells| - 1;
      assert n > 0 ==> cells[n - 1].next == cells[n] && cells[n].prev == cells[n - 1];
      r := anchor.prev.prev.next;
    }

    method Prev(elm: DLink, ghost k: nat) returns (r: DLink?)
      requires Valid() && k < |Elems()| && Elems()[k] == elm
      ensures r == if k == 0 then null else Elems()[k - 1]
    {
      assert cells[k + 1] == elm && cells[k + 1].prev == cells[k];
      assert k > 0 ==> cells[k].prev == cells[k - 1] && cells[k - 1].next == cells[k];
      r := elm.prev.prev.next;
    }

    /** The order in which the reverse macro visits the elements. */
    method ForEachReverse() returns (visited: seq<DLink>)
      requires Valid()
      ensures |visited| == |Elems()| && forall i :: 0 <= i < |visited| ==> visited[i] == Elems()[|Elems()| - 1 - i]
    {
      visited := [];
      var e := Last();
      ghost var n := |Elems()|;
      while e != null
        invariant 0 <= n <= |Elems()| && |visited| == |Elems()| - n
        invariant e == if n == 0 then null else Elems()[n - 1]
        invariant forall i :: 0 <= i < |visited| ==> visited[i] == Elems()[|Elems()| - 1 - i]
        decreases n
      {
        visited := visited + [e];
        e := Prev(e, n - 1);
        n := n - 1;
      }
    }

    method Init()
      modifies this`cells, anchor
      ensures Valid() && Elems() == []
    {
      anchor.next := null;
      anchor.prev := anchor;
      cells := [anchor];
    }

    method InsertTail(elm: DLink)
      requires Valid() && elm !in cells
      modifies this`cells, anchor, elm, cells[|cells| - 1]
      ensures Valid() && Elems() == old(Elems()) + [elm]
    {
      elm.next := null;
      elm.prev := anchor.prev;
      anchor.prev.next := elm;
      anchor.prev := elm;
      cells := cells + [elm];
    }

    method InsertHead(elm: DLink)
      requires Valid() && elm !in cells
      modifies this`cells, anchor, elm, cells
      ensures Valid() && Elems() == [elm] + old(Elems())
    {
      assert |cells| > 1 ==> cells[0].next == cells[1];
      elm.next := anchor.next;
      if elm.next != null {
        anchor.next.prev := elm;
      } else {
        anchor.prev := elm;
      }
      anchor.next := elm;
      elm.prev := anchor;
      ChainedInserted(cells, Inserted(cells, 1, elm), 1, elm);
      cells := Inserted(cells, 1, elm);
    }

    method InsertAfter(listelm: DLink, elm: DLink, ghost k: nat)
      requires Valid() && elm !in cells && k < |Elems()| && Elems()[k] == listelm
      modifies this`cells, elm, cells
      ensures Valid() && Elems() == Inserted(old(Elems()), k + 1, elm)
    {
      assert k + 2 < |cells| ==> cells[k + 1].next == cells[k + 2];
      elm.next := listelm.next;
      if elm.next != null {
        elm.next.prev := elm;
      } else {
        anchor.prev := elm;
      }
      listelm.next := elm;
      elm.prev := listelm;
      InsertedTail(cells, k + 2, elm);
      ChainedInserted(cells, Inserted(cells, k + 2, elm), k + 2, elm);
      cells := Inserted(cells, k + 2, elm);
    }

    method InsertBefore(listelm: DLink, elm: DLink, ghost k: nat)
      requires Valid() && elm !in cells && k < |Elems()| && Elems()[k] == listelm
      modifies this`cells, elm, cells
      ensures Valid() && Elems() == Inserted(old(Elems()), k, elm)
    {
      assert cells[k].next == cells[k + 1] && cells[k + 1].prev == cells[k];
      elm.prev := listelm.prev;
      elm.next := listelm;
      listelm.prev.next := elm;
      listelm.prev := elm;
      InsertedTail(cells, k + 1, elm);
      ChainedInserted(cells, Inserted(cells, k + 1, elm), k + 1, elm);
      cells := Inserted(cells, k + 1, elm);
    }

    /** Unlinks an element wherever it is, without a search. */
    method Remove(elm: DLink, ghost k: nat)
      requires Valid() && k < |Elems()| && Elems()[k] == elm
      modifies this`cells, cells
      ensures Valid() && Elems() == Cut(old(Elems()), k, k + 1)
    {
      assert cells[k].next == cells[k + 1] && cells[k + 1].prev == cells[k];
      assert k + 2 < |cells| ==> cells[k + 1].next == cells[k + 2] && cells[k + 2].prev == cells[k + 1];
      if elm.next != null {
        elm.next.prev := elm.prev;
      } else {
        anchor.prev := elm.prev;
      }
      elm.prev.next := elm.next;
      CutTail(cells, k + 1, k + 2);
      ChainedCut(cells, Cut(cells, k + 1, k + 2), k + 1, k + 2);
      cells := Cut(cells, k + 1, k + 2);
    }

    /** Links the elements of the other list behind those of this one. */
    method TakeOver(head2: DHead)
      requires Valid() && head2.Valid() && head2 != this && head2.Elems() != []
      requires forall x :: x in head2.cells ==> x !in cells
      modifies this`cells, cells, head2.cells
      ensures Valid() && Elems() == old(Elems()) + head2.Elems() && head2.anchor !in cells
    {
      ghost var others, end := head2.cells[1..], |cells| - 1;
      assert head2.cells[0].next == head2.cells[1];
      JoinedChains(cells, head2.cells, cells + others);
      anchor.prev.next := head2.anchor.next;
      head2.anchor.next.prev := anchor.prev;
      anchor.prev := head2.anchor.prev;
      cells := cells + others;
      assert cells[end].next == cells[end + 1] && cells[end + 1].prev == cells[end];
    }

    /** Moves all elements of the other list to the end of this one. */
    method Concat(head2: DHead)
      requires Valid() && head2.Valid() && head2 != this
      requires forall x :: x in head2.cells ==> x !in cells
      modifies this`cells, cells, head2`cells, head2.cells
      ensures Valid() && Elems() == old(Elems()) + old(head2.Elems())
      ensures head2.Valid() && head2.Elems() == []
    {
      assert |head2.cells| > 1 ==> head2.cells[0].next == head2.cells[1];
      if head2.anchor.next != null {
        TakeOver(head2);
        head2.Init();
      }
    }
  }

  lemma JoinedChains(a: seq<DLink>, b: seq<DLink>, c: seq<DLink>)
    requires Chained(a) && Chained(b) && |b| > 1 && (forall x :: x in b ==> x !in a) && c == a + b[1..]
    ensures Distinct(c) && c[|c| - 1] == b[|b| - 1] && c[|c| - 1].next == null
    ensures forall i, j :: 0 <= i < j < |c| && j == i + 1 && i != |a| - 1 ==> c[i].next == c[j] && c[j].prev == c[i]
  {
    assert forall i :: |a| <= i < |c| ==> c[i] == b[i - |a| + 1];
    forall i, j | 0 <= i < j < |c|
      ensures c[i] != c[j]
    {
      if i < |a| <= j { assert c[i] == a[i] && c[j] in b; }
    }
    forall i, j | 0 <= i < j < |c| && j == i + 1 && i != |a| - 1
      ensures c[i].next == c[j] && c[j].prev == c[i]
    {
    }
  }
}
