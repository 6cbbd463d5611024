/**
 * Sub-batch partitioning of one chunk: the LINQ expression that pairs each
 * line with its index and groups by `index / batchSize`.
 */
module Partition {
  import opened Seqs

  /** The chunk is cut into about this many sub-batches. */
  const BATCH_TARGET: nat := 20000

  /** `Math.Max(1, n / 20000)` with integer division. */
  function BatchSize(n: nat): (size: nat)
    ensures size >= 1
    ensures n > 0 ==> size <= n
  {
    Max(1, n / BATCH_TARGET)
  }

  /** Number of distinct keys `index / size` over the indices 0 .. n-1. */
  function BatchCount(n: nat, size: nat): nat
    requires size >= 1
  {
    if n == 0 then 0 else (n - 1) / size + 1
  }

  /** The lines at indices from `from` on whose key `index / size` is `key`, in index order. */
  function Group(lines: seq<string>, size: nat, key: nat, from: nat): seq<string>
    requires size >= 1 && from <= |lines|
    decreases |lines| - from
  {
    if from == |lines| then []
    else (if from / size == key then [lines[from]] else []) + Group(lines, size, key, from + 1)
  }

  /**
   * GroupBy(index / size): keys first occur in increasing order 0, 1, ...,
   * so the k-th group is the one with key k.
   */
  function Batches(lines: seq<string>): seq<seq<string>> {
    var size := BatchSize(|lines|);
    seq(BatchCount(|lines|, size), key requires 0 <= key => Group(lines, size, key, 0))
  }

  lemma MulMonotonic(x: nat, y: nat, c: nat)
    requires x <= y
    ensures x * c <= y * c
  {
    assert y * c == x * c + (y - x) * c;
  }

  /** The key of an index: `i / size == key` exactly on the run [key*size, key*size + size). */
  lemma KeyRange(i: nat, size: nat, key: nat)
    requires size >= 1
    ensures i / size == key <==> key * size <= i < key * size + size
  {
    var q := i / size;
    assert i == q * size + i % size;
    if q < key {
      MulMonotonic(q + 1, key, size);
    } else if q > key {
      MulMonotonic(key + 1, q, size);
    }
  }

  /** A group is the slice of its key's run that lies at or after `from`. */
  lemma {:induction false} GroupIsSlice(lines: seq<string>, size: nat, key: nat, from: nat)
    requires size >= 1 && from <= |lines|
    ensures Group(lines, size, key, from)
         == lines[Min(Max(from, key * size), Min(key * size + size, |lines|))..Min(key * size + size, |lines|)]
    decreases |lines| - from
  {
    if from < |lines| {
      GroupIsSlice(lines, size, key, from + 1);
      KeyRange(from, size, key);
      var hi := Min(key * size + size, |lines|);
      if from / size == key {
        assert lines[from..hi] == [lines[from]] + lines[from + 1..hi];
      }
    }
  }

  /** Every key below the count starts inside the chunk; every key but the last ends inside it. */
  lemma KeyStarts(n: nat, size: nat, key: nat)
    requires size >= 1 && key < BatchCount(n, size)
    ensures key * size < n
    ensures key + 1 < BatchCount(n, size) ==> key * size + size <= n
    ensures key + 1 == BatchCount(n, size) ==> n <= key * size + size
  {
    var last := (n - 1) / size;
    assert n - 1 == last * size + (n - 1) % size;
    MulMonotonic(key, last, size);
    if key + 1 < BatchCount(n, size) {
      MulMonotonic(key + 1, last, size);
    }
  }

  lemma MulSucc(k: nat, size: nat)
    ensures (k + 1) * size == k * size + size
  {
  }

  /** One more batch [lo, hi) after the prefix [0, lo) gives the prefix [0, hi). */
  lemma ConcatStep(lines: seq<string>, prefix: seq<seq<string>>, batch: seq<string>, lo: nat, hi: nat)
    requires lo <= hi <= |lines|
    requires Concat(prefix) == lines[..lo] && batch == lines[lo..hi]
    ensures Concat(prefix + [batch]) == lines[..hi]
  {
    ConcatAppend(prefix, [batch]);
    ConcatSingle(batch);
    assert lines[..lo] + lines[lo..hi] == lines[..hi];
  }

  /** The first j batches, concatenated, are the chunk's first lines up to key j's run. */
  lemma {:induction false} BatchesPrefix(lines: seq<string>, j: nat)
    requires j <= |Batches(lines)|
    ensures Concat(Batches(lines)[..j]) == lines[..Min(j * BatchSize(|lines|), |lines|)]
  {
    if j > 0 {
      var n, size, bs := |lines|, BatchSize(|lines|), Batches(lines);
      var key := j - 1;
      BatchesPrefix(lines, key);
      var lo, hi := key * size, j * size;
      MulSucc(key, size);
      KeyStarts(n, size, key);
      GroupIsSlice(lines, size, key, 0);
      assert bs[..j] == bs[..key] + [bs[key]];
      ConcatStep(lines, bs[..key], bs[key], lo, Min(hi, n));
    }
  }

  /** Batch k is the run of key k: consecutive, non-empty, and full unless it is the last. */
  lemma BatchShape(lines: seq<string>, k: nat)
    requires k < |Batches(lines)|
    ensures var size, bs := BatchSize(|lines|), Batches(lines);
      && k * size < |lines|
      && bs[k] == lines[k * size..Min(k * size + size, |lines|)]
      && bs[k] != []
      && (k < |bs| - 1 ==> |bs[k]| == size)
  {
    var n, size := |lines|, BatchSize(|lines|);
    var lo := k * size;
    var hi := Min(lo + size, n);
    GroupIsSlice(lines, size, k, 0);
    KeyStarts(n, size, k);
    assert lo < hi;
    var g := Group(lines, size, k, 0);
    assert g == lines[lo..hi];
    assert Batches(lines)[k] == g;
    assert |g| == hi - lo;
  }

  /** There are ceil(n / size) batches, and none for an empty chunk. */
  lemma BatchTotal(lines: seq<string>)
    ensures var size, bs := BatchSize(|lines|), Batches(lines);
      && (|lines| == 0 <==> bs == [])
      && (|lines| > 0 ==> (|bs| - 1) * size < |lines| <= |bs| * size)
  {
    var size, count := BatchSize(|lines|), |Batches(lines)|;
    if |lines| > 0 {
      KeyStarts(|lines|, size, count - 1);
      MulSucc(count - 1, size);
    }
  }

  /**
   * The partition is exact: sub-batches are consecutive, non-empty runs of
   * `BatchSize` lines (the last possibly shorter), there are ceil(n / size)
   * of them, and together they are the chunk.
   */
  lemma PartitionExact(lines: seq<string>)
    ensures var size, bs := BatchSize(|lines|), Batches(lines);
      && size >= 1
      && (|lines| == 0 <==> bs == [])
      && (|lines| > 0 ==> (|bs| - 1) * size < |lines| <= |bs| * size)
      && (forall k :: 0 <= k < |bs| ==> k * size < |lines| && bs[k] == lines[k * size..Min(k * size + size, |lines|)])
      && (forall k :: 0 <= k < |bs| ==> bs[k] != [])
      && (forall k :: 0 <= k < |bs| - 1 ==> |bs[k]| == size)
      && Concat(bs) == lines
  {
    var size, bs := BatchSize(|lines|), Batches(lines);
    forall k | 0 <= k < |bs|
      ensures k * size < |lines| && bs[k] == lines[k * size..Min(k * size + size, |lines|)]
      ensures bs[k] != [] && (k < |bs| - 1 ==> |bs[k]| == size)
    {
      BatchShape(lines, k);
    }
    BatchTotal(lines);
    BatchesPrefix(lines, |bs|);
    assert bs[..|bs|] == bs;
  }
}
