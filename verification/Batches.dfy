/** `createOptimizedBatches`: balanced batches, and how few of them. */
module Batches {

  /** `Math.ceil(n / d)` */
  function CeilDiv(n: nat, d: nat): (c: nat)
    requires d >= 1
    ensures c * d >= n
    ensures n >= 1 ==> c >= 1 && (c - 1) * d < n
  {
    assert n + d - 1 == (n + d - 1) / d * d + (n + d - 1) % d;
    (n + d - 1) / d
  }

  lemma Cancel(a: int, b: int, d: int)
    requires d >= 1 && a * d < b * d
    ensures a < b
  {
    assert (b - a) * d > 0;
  }

  lemma Scale(a: int, b: int, d: int)
    requires d >= 0 && a <= b
    ensures a * d <= b * d
  {
    assert (b - a) * d >= 0;
  }

  lemma CeilDivLeast(n: nat, d: nat, c: nat)
    requires d >= 1 && n <= c * d
    ensures CeilDiv(n, d) <= c
  {
    if n >= 1 {
      Cancel(CeilDiv(n, d) - 1, c, d);
    }
  }

  lemma CeilDivUnique(n: nat, d: nat, c: nat)
    requires d >= 1 && c >= 1 && (c - 1) * d < n <= c * d
    ensures CeilDiv(n, d) == c
  {
    hide CeilDiv;
    CeilDivLeast(n, d, c);
    assert n >= 1 by { Scale(0, c - 1, d); }
    Cancel(c - 1, CeilDiv(n, d), d);
  }

  /** The size of the slices. */
  function BatchSize(total: nat, minBatchSize: nat, maxBatchSize: nat): (size: nat)
    requires minBatchSize >= 1 && maxBatchSize >= 1
    ensures total > 0 ==> size > 0
  {
    if total <= minBatchSize then total
    else
      var size := CeilDiv(total, CeilDiv(total, minBatchSize));
      if size > maxBatchSize then CeilDiv(total, CeilDiv(total, maxBatchSize)) else size
  }

  function Slices<T>(items: seq<T>, size: nat): seq<seq<T>>
    requires items != [] ==> size > 0
    decreases |items|
  {
    if |items| == 0 then []
    else if |items| <= size then [items]
    else [items[..size]] + Slices(items[size..], size)
  }

  method CreateOptimizedBatches<T>(items: seq<T>, minBatchSize: nat, maxBatchSize: nat) returns (batches: seq<seq<T>>)
    requires minBatchSize >= 1 && maxBatchSize >= 1
    ensures batches == Slices(items, BatchSize(|items|, minBatchSize, maxBatchSize))
  {
    hide CeilDiv;
    var totalItems := |items|;
    var numBatches := 1;
    var batchSize := totalItems;
    if totalItems > minBatchSize {
      numBatches := CeilDiv(totalItems, minBatchSize);
      batchSize := CeilDiv(totalItems, numBatches);
      if batchSize > maxBatchSize {
        numBatches := CeilDiv(totalItems, maxBatchSize);
        batchSize := CeilDiv(totalItems, numBatches);
      }
    }
    batches := Cut(items, batchSize);
  }

  method Cut<T>(items: seq<T>, batchSize: nat) returns (batches: seq<seq<T>>)
    requires items != [] ==> batchSize > 0
    ensures batches == Slices(items, batchSize)
  {
    batches := [];
    var i := 0;
    while i < |items|
      invariant i >= 0
      invariant Slices(items, batchSize) == batches + (if i < |items| then Slices(items[i..], batchSize) else [])
      decreases |items| - i
    {
      var end := if i + batchSize < |items| then i + batchSize else |items|;
      assert items[i..][..end - i] == items[i..end];
      if i + batchSize < |items| {
        assert items[i..][batchSize..] == items[i + batchSize..];
        assert Slices(items[i..], batchSize) == [items[i..end]] + Slices(items[end..], batchSize);
        assert batches + ([items[i..end]] + Slices(items[end..], batchSize))
            == batches + [items[i..end]] + Slices(items[end..], batchSize);
      } else {
        assert items[i..] == items[i..end];
      }
      batches := batches + [items[i..end]];
      i := i + batchSize;
    }
  }

  // ----- What the batches are

  function Concat<T>(batches: seq<seq<T>>): seq<T> {
    if batches == [] then [] else batches[0] + Concat(batches[1..])
  }

  lemma {:induction false} SlicesPartition<T>(items: seq<T>, size: nat)
    requires items != [] ==> size > 0
    ensures var b := Slices(items, size);
            && Concat(b) == items
            && (forall i | 0 <= i < |b| :: b[i] != [] && |b[i]| <= size)
            && (forall i | 0 <= i < |b| - 1 :: |b[i]| == size)
    decreases |items|
  {
    if |items| > size {
      SlicesPartition(items[size..], size);
      assert items == items[..size] + items[size..];
      assert (Slices(items, size))[1..] == Slices(items[size..], size);
    } else if items != [] {
      assert [items][1..] == [] && items + [] == items;
    }
  }

  lemma {:induction false} SlicesCount<T>(items: seq<T>, size: nat)
    requires size > 0
    ensures |Slices(items, size)| == CeilDiv(|items|, size)
    decreases |items|
  {
    if |items| > size {
      SlicesCount(items[size..], size);
      var c := CeilDiv(|items| - size, size);
      assert c * size == (c + 1) * size - size && (c - 1) * size == c * size - size;
      CeilDivUnique(|items|, size, c + 1);
    } else if items != [] {
      CeilDivUnique(|items|, size, 1);
    } else {
      assert CeilDiv(0, size) == 0;
    }
  }

  /** Sharing `n` items out evenly over as many batches as a limit demands gives that many. */
  lemma EvenCount(n: nat, limit: nat)
    requires n > 0 && limit > 0
    ensures var size := CeilDiv(n, CeilDiv(n, limit));
            0 < size <= limit && CeilDiv(n, size) == CeilDiv(n, limit)
  {
    hide CeilDiv;
    var k := CeilDiv(n, limit);
    var size := CeilDiv(n, k);
    assert limit * k == k * limit;
    CeilDivLeast(n, k, limit);
    assert size * k == k * size && (k - 1) * size == size * (k - 1);
    assert (k - 1) * size <= (k - 1) * limit by { Scale(size, limit, k - 1); }
    CeilDivUnique(n, size, k);
  }

  /** The limit that decides: the maximum only overrules the minimum where even batches would exceed it. */
  function Limit(total: nat, minBatchSize: nat, maxBatchSize: nat): nat
    requires minBatchSize >= 1 && maxBatchSize >= 1
  {
    if total > minBatchSize && CeilDiv(total, CeilDiv(total, minBatchSize)) > maxBatchSize then maxBatchSize
    else minBatchSize
  }

  lemma BatchSizeCount(total: nat, minBatchSize: nat, maxBatchSize: nat)
    requires minBatchSize >= 1 && maxBatchSize >= 1 && total > 0
    ensures var size := BatchSize(total, minBatchSize, maxBatchSize);
            var limit := Limit(total, minBatchSize, maxBatchSize);
            && 0 < size <= limit && CeilDiv(total, size) == CeilDiv(total, limit)
            && size == CeilDiv(total, CeilDiv(total, limit))
  {
    hide CeilDiv;
    EvenCount(total, minBatchSize);
    EvenCount(total, maxBatchSize);
    if total <= minBatchSize {
      assert total * 1 == total && 1 * minBatchSize == minBatchSize;
      CeilDivUnique(total, minBatchSize, 1);
      CeilDivUnique(total, 1, total);
    }
  }

  lemma {:induction false} ConcatBound<T>(batches: seq<seq<T>>, limit: nat)
    requires forall b | b in batches :: |b| <= limit
    ensures |Concat(batches)| <= |batches| * limit
  {
    if batches != [] {
      var rest := batches[1..];
      assert batches[0] in batches && forall b | b in rest :: b in batches;
      ConcatBound(rest, limit);
      NextMultiple(|rest|, limit);
    }
  }

  lemma NextMultiple(k: nat, d: nat)
    ensures (k + 1) * d == k * d + d
  {
  }

  /** No way of cutting the items into batches within a limit has fewer than the ceiling of the quotient. */
  lemma NoFewer<T>(batches: seq<seq<T>>, limit: nat)
    requires limit > 0 && forall b | b in batches :: |b| <= limit
    ensures CeilDiv(|Concat(batches)|, limit) <= |batches|
  {
    hide CeilDiv, Concat;
    ConcatBound(batches, limit);
    CeilDivLeast(|Concat(batches)|, limit, |batches|);
  }

  lemma Shortfall(n: nat, size: nat, k: nat, last: nat)
    requires n > 0 && k > 0 && size == CeilDiv(n, k) && n == (k - 1) * size + last
    ensures size - last < k
  {
    hide CeilDiv;
    assert (size - 1) * k < n;
    assert (size - 1) * k == size * k - k && (k - 1) * size == size * k - size;
  }

  /** The result for every input: the batches partition the items in order, none is empty or over the limit,
      all but the last are equal, the last falls short by less than the number of batches, and no partition
      within the limit is smaller. */
  lemma OptimalBatches<T>(items: seq<T>, minBatchSize: nat, maxBatchSize: nat, other: seq<seq<T>>)
    requires minBatchSize >= 1 && maxBatchSize >= 1 && items != []
    ensures var limit := Limit(|items|, minBatchSize, maxBatchSize);
            var size := BatchSize(|items|, minBatchSize, maxBatchSize);
            var b := Slices(items, size);
            && Concat(b) == items && |b| == CeilDiv(|items|, limit) && size <= limit
            && (forall i | 0 <= i < |b| :: 0 < |b[i]| <= size)
            && (forall i | 0 <= i < |b| - 1 :: |b[i]| == size)
            && size - |b[|b| - 1]| < |b|
            && (Concat(other) == items && (forall o | o in other :: |o| <= limit) ==> |b| <= |other|)
  {
    hide CeilDiv, Slices, Concat, BatchSize, Limit;
    var limit := Limit(|items|, minBatchSize, maxBatchSize);
    var size := BatchSize(|items|, minBatchSize, maxBatchSize);
    var b := Slices(items, size);
    BatchSizeCount(|items|, minBatchSize, maxBatchSize);
    SlicesPartition(items, size);
    SlicesCount(items, size);
    LastSize(b, size);
    Shortfall(|items|, size, |b|, |b[|b| - 1]|);
    if Concat(other) == items && (forall o | o in other :: |o| <= limit) {
      NoFewer(other, limit);
    }
  }

  lemma {:induction false} LastSize<T>(b: seq<seq<T>>, size: nat)
    requires b != [] && forall i | 0 <= i < |b| - 1 :: |b[i]| == size
    ensures |Concat(b)| == (|b| - 1) * size + |b[|b| - 1]|
  {
    if |b| == 1 {
      assert b[1..] == [];
    } else {
      var rest := b[1..];
      assert forall i | 0 <= i < |rest| - 1 :: rest[i] == b[i + 1];
      LastSize(rest, size);
      assert (|b| - 1) * size == (|rest| - 1) * size + size;
    }
  }

  /** With limits in order the maximum never matters. */
  lemma MaximumIsUnused(total: nat, minBatchSize: nat, maxBatchSize: nat)
    requires 1 <= minBatchSize <= maxBatchSize && total > 0
    ensures Limit(total, minBatchSize, maxBatchSize) == minBatchSize
    ensures BatchSize(total, minBatchSize, maxBatchSize) == BatchSize(total, minBatchSize, minBatchSize)
  {
    hide CeilDiv;
    EvenCount(total, minBatchSize);
  }

  /** A batch is larger than the maximum exactly if the items fit the minimum but not the maximum. */
  lemma MaximumIsExceeded(total: nat, minBatchSize: nat, maxBatchSize: nat)
    requires minBatchSize >= 1 && maxBatchSize >= 1 && total > 0
    ensures BatchSize(total, minBatchSize, maxBatchSize) > maxBatchSize <==> maxBatchSize < total <= minBatchSize
  {
    hide CeilDiv;
    EvenCount(total, minBatchSize);
    EvenCount(total, maxBatchSize);
  }
}
