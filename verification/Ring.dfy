/** Power-of-two ring buffers: indices that wrap, and the sequence a ring stands for. */
module Ring {

  /** The i-th place of a ring of `size` that starts at `first`. */
  function Place(size: nat, first: nat, i: nat): (r: nat)
    requires first < size && i <= size
    ensures r < size
  {
    if first + i < size then first + i else first + i - size
  }

  /** The place in front of `index`. */
  function Before(size: nat, index: nat): (r: nat)
    requires index < size
    ensures r < size && Place(size, r, 1) == index
  {
    if index == 0 then size - 1 else index - 1
  }

  /** The `num` elements from `first` on. */
  function RingOf<T>(a: seq<T>, first: nat, num: nat): (r: seq<T>)
    requires first < |a| && num <= |a|
    ensures |r| == num && forall i :: 0 <= i < num ==> r[i] == a[Place(|a|, first, i)]
  {
    seq(num, i requires 0 <= i < num => a[Place(|a|, first, i)])
  }

  /** Append to at most `size` elements, giving up the oldest when full. */
  function Appended<T>(size: nat, s: seq<T>, x: T): (r: seq<T>)
    requires 0 < size
    ensures 1 <= |r| && r[|r| - 1] == x && (|s| <= size ==> |r| <= size)
  {
    (if |s| == size then s[1..] else s) + [x]
  }

  lemma RingPush<T>(a: seq<T>, first: nat, num: nat, x: T)
    requires first < |a| && num < |a|
    ensures RingOf(a[Place(|a|, first, num) := x], first, num + 1) == RingOf(a, first, num) + [x]
  {
  }

  lemma RingPushFull<T>(a: seq<T>, first: nat, x: T)
    requires first < |a|
    ensures RingOf(a[first := x], Place(|a|, first, 1), |a|) == RingOf(a, first, |a|)[1..] + [x]
  {
  }

  /** Moving the start forward leaves the end of what was there. */
  lemma RingSuffix<T>(a: seq<T>, first: nat, num: nat, n: nat)
    requires first < |a| && n <= num <= |a|
    ensures RingOf(a, Place(|a|, first, num - n), n) == RingOf(a, first, num)[num - n..]
  {
  }

  lemma PlaceSteps(size: nat, first: nat, i: nat)
    requires first < size && i < size
    ensures Place(size, Place(size, first, i), 1) == Place(size, first, i + 1)
    ensures Before(size, Place(size, first, i + 1)) == Place(size, first, i)
  {
  }

  lemma PlaceInjective(size: nat, first: nat, i: nat, j: nat)
    requires first < size && i < size && j < size
    ensures Place(size, first, i) == Place(size, first, j) <==> i == j
  {
  }

  lemma PlaceShift(size: nat, first: nat, num: nat, n: nat)
    requires first < size && n <= num <= size
    ensures Place(size, Place(size, first, num - n), n) == Place(size, first, num)
  {
  }

  /** Stepping a 32-bit index and masking it moves one place along a ring of 2^k places. */
  lemma MaskSteps(i: bv32)
    ensures i < 64 ==>
      && (i + 1) & 0x3F == (if i == 63 then 0 else i + 1)
      && (i - 1) & 0x3F == (if i == 0 then 63 else i - 1)
    ensures i < 128 ==>
      && (i + 1) & 0x7F == (if i == 127 then 0 else i + 1)
      && (i - 1) & 0x7F == (if i == 0 then 127 else i - 1)
    ensures i < 1024 ==>
      && (i + 1) & 0x3FF == (if i == 1023 then 0 else i + 1)
      && (i - 1) & 0x3FF == (if i == 0 then 1023 else i - 1)
  {
  }
}
