/** The singly-linked tail queue macros, in place. A pointer to a link field is modelled by the
    object that holds the field: an element, or the anchor that stands for the head's first
    pointer. */
module Stailq {
  import opened SeqFacts

  class Link {
    var next: Link?

    constructor ()
      ensures next == null
    {
      next := null;
    }
  }

  /** The links lead through `cells` one by one and end after the last. */
  ghost predicate Chain(cells: seq<Link>)
    reads cells
  {
    && cells != [] && Distinct(cells)
    && (forall i, j :: 0 <= i < j < |cells| && j == i + 1 ==> cells[i].next == cells[j])
    && cells[|cells| - 1].next == null
  }

  /** The links of a former chain, but for the one that leaves position `k`. */
  ghost predicate LinksBut(cells: seq<Link>, k: int)
    reads cells
  {
    && Distinct(cells)
    && (forall i, j :: 0 <= i < j < |cells| && j == i + 1 && i != k ==> cells[i].next == cells[j])
    && (cells != [] && k != |cells| - 1 ==> cells[|cells| - 1].next == null)
  }

  lemma ChainInserted(before: seq<Link>, now: seq<Link>, k: nat, elm: Link)
    requires 0 < k <= |before| && LinksBut(before, k - 1) && elm !in before && now == Inserted(before, k, elm)
    requires before[k - 1].next == elm && elm.next == if k < |before| then before[k] else null
    ensures Chain(now)
  {
    forall i, j | 0 <= i < j < |now|
      ensures now[i] != now[j] && (j == i + 1 ==> now[i].next == now[j])
    {
      assert now[i] == if i < k then before[i] else if i == k then elm else before[i - 1];
      assert now[j] == if j < k then before[j] else if j == k then elm else before[j - 1];
    }
  }

  lemma ChainCut(before: seq<Link>, now: seq<Link>, m: nat, n: nat)
    requires 0 < m < n <= |before| && LinksBut(before, m - 1) && now == Cut(before, m, n)
    requires before[m - 1].next == if n < |before| then before[n] else null
    ensures Chain(now)
  {
    forall i, j | 0 <= i < j < |now|
      ensures now[i] != now[j] && (j == i + 1 ==> now[i].next == now[j])
    {
      assert now[i] == if i < m then before[i] else before[i + (n - m)];
      assert now[j] == if j < m then before[j] else before[j + (n - m)];
    }
  }

  /** Two chains one after the other, before the link between them is made. */
  lemma JoinedChain(a: seq<Link>, b: seq<Link>, c: seq<Link>)
    requires Chain(a) && Chain(b) && |b| > 1 && (forall x :: x in b ==> x !in a) && c == a + b[1..]
    ensures Distinct(c) && c[|c| - 1] == b[|b| - 1] && c[|c| - 1].next == null
    ensures forall i, j :: 0 <= i < j < |c| && j == i + 1 && i != |a| - 1 ==> c[i].next == c[j]
  {
    assert forall i :: |a| <= i < |c| ==> c[i] == b[i - |a| + 1];
    forall i, j | 0 <= i < j < |c|
      ensures c[i] != c[j]
    {
      if i < |a| <= j { assert c[i] == a[i] && c[j] in b; }
    }
    forall i, j | 0 <= i < j < |c| && j == i + 1 && i != |a| - 1
      ensures c[i].next == c[j]
    {
    }
  }

  class Head {
    const anchor: Link
    var last: Link
    /** The anchor followed by the elements. */
    ghost var cells: seq<Link>

    /** The list runs through `cells` without a cycle, and `last` is exactly its end. */
    ghost predicate Valid()
      reads this, cells
    {
      Chain(cells) && cells[0] == anchor && last == cells[|cells| - 1]
    }

    ghost function Elems(): seq<Link>
      reads this
      requires cells != []
    {
      cells[1..]
    }

    constructor ()
      ensures Valid() && Elems() == [] && fresh(anchor)
    {
      var link := new Link();
      anchor, last := link, link;
      cells := [link];
    }

    predicate Empty()
      requires Valid()
      reads this, cells, anchor
      ensures Empty() == (Elems() == [])
    {
      assert |cells| > 1 ==> cells[0].next == cells[1];
      anchor.next == null
    }

    function First(): (r: Link?)
      requires Valid()
      reads this, cells, anchor
      ensures r == if Elems() == [] then null else Elems()[0]
    {
      assert |cells| > 1 ==> cells[0].next == cells[1];
      anchor.next
    }

    function Last(): (r: Link?)
      requires Valid()
      reads this, cells, anchor
      ensures r == if Elems() == [] then null else Elems()[|Elems()| - 1]
    {
      assert |cells| > 1 ==> cells[0].next == cells[1];
      if anchor.next == null then null else last
    }

    /** The order in which the foreach macro visits the elements. */
    method ForEach() returns (visited: seq<Link>)
      requires Valid()
      ensures visited == Elems()
    {
      visited := [];
      var e := anchor.next;
      ghost var i := 1;
      assert |cells| > 1 ==> cells[0].next == cells[1];
      while e != null
        invariant 1 <= i <= |cells| && visited == cells[1..i]
        invariant e == if i < |cells| then cells[i] else null
        decreases |cells| - i
      {
        assert i + 1 < |cells| ==> cells[i].next == cells[i + 1];
        visited := visited + [e];
        e := e.next;
        i := i + 1;
      }
    }

    method Init()
      modifies this`last, this`cells, anchor
      ensures Valid() && Elems() == []
    {
      anchor.next := null;
      last := anchor;
      cells := [anchor];
    }

    method InsertTail(elm: Link)
      requires Valid() && elm !in cells
      modifies this`last, this`cells, elm, last
      ensures Valid() && Elems() == old(Elems()) + [elm]
    {
      elm.next := null;
      last.next := elm;
      last := elm;
      cells := cells + [elm];
    }

    method InsertHead(elm: Link)
      requires Valid() && elm !in cells
      modifies this`last, this`cells, elm, anchor
      ensures Valid() && Elems() == [elm] + old(Elems())
    {
      assert |cells| > 1 ==> cells[0].next == cells[1];
      elm.next := anchor.next;
      if elm.next == null {
        last := elm;
      }
      anchor.next := elm;
      ChainInserted(cells, Inserted(cells, 1, elm), 1, elm);
      cells := Inserted(cells, 1, elm);
    }

    method InsertAfter(tqelm: Link, elm: Link, ghost k: nat)
      requires Valid() && elm !in cells && k < |Elems()| && Elems()[k] == tqelm
      modifies this`last, this`cells, elm, tqelm
      ensures Valid() && Elems() == Inserted(old(Elems()), k + 1, elm)
    {
      assert k + 2 < |cells| ==> cells[k + 1].next == cells[k + 2];
      elm.next := tqelm.next;
      if elm.next == null {
        last := elm;
      }
      tqelm.next := elm;
      InsertedTail(cells, k + 2, elm);
      ChainInserted(cells, Inserted(cells, k + 2, elm), k + 2, elm);
      cells := Inserted(cells, k + 2, elm);
    }

    /** Unlinks the first element; its own link is left as it was. */
    method RemoveHead()
      requires Valid() && Elems() != []
      modifies this`last, this`cells, anchor
      ensures Valid() && Elems() == old(Elems())[1..]
    {
      assert cells[0].next == cells[1] && (|cells| > 2 ==> cells[1].next == cells[2]);
      anchor.next := anchor.next.next;
      if anchor.next == null {
        last := anchor;
      }
      ChainCut(cells, Cut(cells, 1, 2), 1, 2);
      cells := Cut(cells, 1, 2);
    }

    /** Unlinks everything up to and including the given element. */
    method RemoveHeadUntil(elm: Link, ghost k: nat)
      requires Valid() && k < |Elems()| && Elems()[k] == elm
      modifies this`last, this`cells, anchor
      ensures Valid() && Elems() == old(Elems())[k + 1..]
    {
      assert k + 2 < |cells| ==> cells[k + 1].next == cells[k + 2];
      anchor.next := elm.next;
      if anchor.next == null {
        last := anchor;
      }
      ChainCut(cells, Cut(cells, 1, k + 2), 1, k + 2);
      cells := Cut(cells, 1, k + 2);
    }

    /** The element in front of the given one, which is not the first. */
    method FindBefore(elm: Link, ghost k: nat) returns (curelm: Link)
      requires Valid() && 1 <= k < |Elems()| && Elems()[k] == elm
      ensures curelm == Elems()[k - 1]
    {
      assert cells[0].next == cells[1];
      curelm := anchor.next;
      ghost var i := 1;
      while curelm.next != elm
        invariant 1 <= i <= k && curelm == cells[i]
        decreases k - i
      {
        assert cells[i].next == cells[i + 1];
        curelm := curelm.next;
        i := i + 1;
      }
      assert cells[i].next == cells[i + 1];
    }

    /** Unlinks the element behind the given one. */
    method RemoveNext(curelm: Link, ghost k: nat)
      requires Valid() && 0 < k < |Elems()| && Elems()[k - 1] == curelm
      modifies this`last, this`cells, curelm
      ensures Valid() && Elems() == Cut(old(Elems()), k, k + 1)
    {
      assert cells[k] == curelm && cells[k].next == cells[k + 1];
      assert k + 2 < |cells| ==> cells[k + 1].next == cells[k + 2];
      curelm.next := curelm.next.next;
      if curelm.next == null {
        last := curelm;
      }
      CutTail(cells, k + 1, k + 2);
      ChainCut(cells, Cut(cells, k + 1, k + 2), k + 1, k + 2);
      cells := Cut(cells, k + 1, k + 2);
    }

    /** Unlinks an element wherever it is. */
    method Remove(elm: Link, ghost k: nat)
      requires Valid() && k < |Elems()| && Elems()[k] == elm
      modifies this`last, this`cells, cells
      ensures Valid() && Elems() == Cut(old(Elems()), k, k + 1)
    {
      assert cells[0].next == cells[1] && cells[k + 1] == elm;
      if anchor.next == elm {
        RemoveHead();
      } else {
        var curelm := FindBefore(elm, k);
        RemoveNext(curelm, k);
      }
    }

    /** Moves all elements of the other list to the end of this one. */
    method Concat(head2: Head)
      requires Valid() && head2.Valid() && head2 != this
      requires forall x :: x in head2.cells ==> x !in cells
      modifies this`last, this`cells, last, head2`last, head2`cells, head2.anchor
      ensures Valid() && Elems() == old(Elems()) + old(head2.Elems())
      ensures head2.Valid() && head2.Elems() == []
    {
      assert |head2.cells| > 1 ==> head2.cells[0].next == head2.cells[1];
      if head2.anchor.next != null {
        ghost var others := head2.cells[1..];
        assert head2.anchor !in others && others[0] == head2.anchor.next && others[|others| - 1] == head2.last;
        JoinedChain(cells, head2.cells, cells + others);
        ghost var end := |cells| - 1;
        last.next := head2.anchor.next;
        last := head2.last;
        cells := cells + others;
        assert cells[end].next == cells[end + 1];
        assert Chain(cells);
        head2.Init();
      }
    }
  }
}
