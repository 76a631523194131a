/** Credit arithmetic of the HTC send path: padding to the device block size, the number
    of credits a transfer consumes, and the share an endpoint is entitled to. */
module CreditMath {

  const HTC_HDR_LENGTH: nat := 6

  /** The device layer rounds every transfer up to a whole number of blocks. */
  function PaddedLength(length: nat, block: nat): (r: nat)
    requires 0 < block
    ensures r % block == 0 && length <= r < length + block
  {
    var n := (length + block - 1) / block;
    MultipleHasNoRemainder(n, block);
    n * block
  }

  /** Least number of credits, at least one, whose bytes cover the transfer. */
  function CreditsRequired(transferLength: nat, creditSize: nat): (r: nat)
    requires 0 < creditSize
    ensures 1 <= r && transferLength <= r * creditSize
    ensures 1 < r ==> (r - 1) * creditSize < transferLength
  {
    if transferLength <= creditSize then 1
    else
      var whole := transferLength / creditSize;
      assert transferLength == whole * creditSize + transferLength % creditSize;
      if transferLength % creditSize != 0 then whole + 1 else whole
  }

  /** Credits a maximum sized message is assumed to need when a service is connected. */
  function CreditsPerMaxMsg(maxMsgSize: nat, creditSize: nat): (r: nat)
    requires 0 < creditSize
    ensures 1 <= r && (creditSize <= maxMsgSize ==> r * creditSize <= maxMsgSize < (r + 1) * creditSize)
  {
    var whole := maxMsgSize / creditSize;
    assert maxMsgSize == whole * creditSize + maxMsgSize % creditSize;
    if whole == 0 then 1 else whole
  }

  lemma MulOrder(a: int, b: int, c: nat)
    requires 0 < c
    ensures a <= b <==> a * c <= b * c
  {
    if a < b { MulGrows(b - a, c); }
    if b < a { MulGrows(a - b, c); }
    assert (b - a) * c == b * c - a * c;
    assert (a - b) * c == a * c - b * c;
  }

  lemma {:induction false} MulGrows(k: nat, c: nat)
    requires 1 <= k && 0 < c
    ensures c <= k * c
  {
    if 1 < k {
      MulGrows(k - 1, c);
      assert k * c == (k - 1) * c + c;
    }
  }

  lemma MultipleHasNoRemainder(n: nat, block: nat)
    requires 0 < block
    ensures n * block % block == 0
  {
    QuotientIs(n * block, block, n);
    assert n * block == n * block / block * block + n * block % block;
  }

  lemma QuotientIs(x: nat, d: nat, q: nat)
    requires 0 < d && q * d <= x < (q + 1) * d
    ensures x / d == q
  {
    var k := x / d;
    assert x == k * d + x % d;
    assert (k + 1) * d == k * d + d;
    if q < k { MulOrder(q + 1, k, d); }
    if k < q { MulOrder(k + 1, q, d); }
  }

  /** A transfer is covered by n credits exactly when it asks for no more than n. */
  lemma CreditsRequiredIsLeast(transferLength: nat, creditSize: nat, n: nat)
    requires 0 < creditSize && 1 <= n
    ensures CreditsRequired(transferLength, creditSize) <= n <==> transferLength <= n * creditSize
  {
    var r := CreditsRequired(transferLength, creditSize);
    if r <= n {
      MulOrder(r, n, creditSize);
    } else {
      MulOrder(n, r - 1, creditSize);
    }
  }

  /** The credits a message of a given size is charged: its header comes on top, and the device
      pads the transfer. */
  function MessageCharge(size: nat, creditSize: nat, block: nat): (r: nat)
    requires 0 < creditSize && 0 < block
    ensures 1 <= r
  {
    CreditsRequired(PaddedLength(size + HTC_HDR_LENGTH, block), creditSize)
  }

  /** The share computed when a service is connected rounds down and leaves the header out, so a
      message of the maximum size fits in it exactly when its padded transfer fits one credit. */
  lemma MaxMessageFitsShare(maxMsgSize: nat, creditSize: nat, block: nat)
    requires 0 < creditSize && 0 < block
    ensures var share := CreditsPerMaxMsg(maxMsgSize, creditSize);
      var transfer := PaddedLength(maxMsgSize + HTC_HDR_LENGTH, block);
      && (MessageCharge(maxMsgSize, creditSize, block) <= share <==> transfer <= share * creditSize)
      && (MessageCharge(maxMsgSize, creditSize, block) <= share <==> transfer <= creditSize)
  {
    var share := CreditsPerMaxMsg(maxMsgSize, creditSize);
    CreditsRequiredIsLeast(PaddedLength(maxMsgSize + HTC_HDR_LENGTH, block), creditSize, share);
    MulGrows(share, creditSize);
    if maxMsgSize < creditSize { QuotientIs(maxMsgSize, creditSize, 0); }
  }

  /** A maximum message of one whole credit, or a little less, needs two. */
  lemma MaxMessageMissesShare()
    ensures CreditsPerMaxMsg(1536, 1536) == CreditsPerMaxMsg(1535, 1536) == 1
    ensures MessageCharge(1536, 1536, 128) == MessageCharge(1535, 1536, 128) == 2
  {
    QuotientIs(1536 + HTC_HDR_LENGTH + 127, 128, 13);
    QuotientIs(1535 + HTC_HDR_LENGTH + 127, 128, 13);
    QuotientIs(13 * 128, 1536, 1);
    QuotientIs(1536, 1536, 1);
    QuotientIs(1535, 1536, 0);
  }

  /** Even shares of a total: what is left over is less than one credit per endpoint. */
  lemma EvenShares(total: nat, n: nat)
    requires 0 < n
    ensures n * (total / n) <= total < n * (total / n) + n
  {
    assert total == total / n * n + total % n;
  }

  lemma MulSucc(n: nat, c: nat)
    ensures (1 + n) * c == c + n * c
  {
  }

  lemma SharesWithin(c: nat, n: nat, total: nat)
    requires 0 < n && c <= n
    ensures c * (total / n) <= total
    ensures c == n ==> total - c * (total / n) < n
  {
    EvenShares(total, n);
    if 0 < total / n {
      MulOrder(c, n, total / n);
    }
  }
}
