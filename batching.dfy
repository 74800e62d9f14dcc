/**
 * The batch split of `upload_to_pinecone`:
 * `[records[i:i + 96] for i in range(0, len(records), 96)]`.
 */
module Batching {

  /** The most records the embedding service accepts in one call. */
  const BATCH_SIZE: nat := 96

  function Min(a: int, b: int): int {
    if a <= b then a else b
  }

  /** The slices taken from `start` on, stepping by `size`; Python clamps the last slice to the end. */
  function BatchesFrom<T>(s: seq<T>, start: nat, size: nat): seq<seq<T>>
    requires size > 0
    decreases |s| - start
  {
    if start >= |s| then []
    else [s[start..Min(start + size, |s|)]] + BatchesFrom(s, start + size, size)
  }

  /** The batches of `s`: the comprehension over `range(0, len(s), size)`. */
  function Batches<T>(s: seq<T>, size: nat): seq<seq<T>>
    requires size > 0
  {
    BatchesFrom(s, 0, size)
  }

  /** The batches laid end to end. */
  function Flatten<T>(bs: seq<seq<T>>): seq<T>
    decreases |bs|
  {
    if |bs| == 0 then [] else bs[0] + Flatten(bs[1..])
  }

  /** `ceil(n / size)`. */
  function CeilDiv(n: nat, size: nat): nat
    requires size > 0
  {
    (n + size - 1) / size
  }

  lemma {:induction false} FlattenAppend<T>(a: seq<seq<T>>, b: seq<seq<T>>)
    ensures Flatten(a + b) == Flatten(a) + Flatten(b)
    decreases |a|
  {
    if |a| == 0 {
      assert a + b == b;
    } else {
      assert (a + b)[1..] == a[1..] + b;
      FlattenAppend(a[1..], b);
    }
  }

  /** What the first `k` batches carry is a prefix of what all of them carry. */
  lemma FlattenPrefix<T>(bs: seq<seq<T>>, k: nat)
    requires k <= |bs|
    ensures Flatten(bs[..k]) <= Flatten(bs)
  {
    assert bs == bs[..k] + bs[k..];
    FlattenAppend(bs[..k], bs[k..]);
  }

  lemma {:induction false} BatchesFromFlatten<T>(s: seq<T>, start: nat, size: nat)
    requires size > 0 && start <= |s|
    ensures Flatten(BatchesFrom(s, start, size)) == s[start..]
    decreases |s| - start
  {
    if start < |s| {
      var bs := BatchesFrom(s, start, size);
      assert bs[1..] == BatchesFrom(s, start + size, size);
      if start + size <= |s| {
        BatchesFromFlatten(s, start + size, size);
        assert s[start..] == s[start..start + size] + s[start + size..];
      } else {
        assert BatchesFrom(s, start + size, size) == [];
        assert s[start..Min(start + size, |s|)] == s[start..];
      }
    }
  }

  /** Concatenating the batches in order gives back the input exactly. */
  lemma BatchesFlatten<T>(s: seq<T>, size: nat)
    requires size > 0
    ensures Flatten(Batches(s, size)) == s
  {
    BatchesFromFlatten(s, 0, size);
  }

  lemma {:induction false} BatchesFromShape<T>(s: seq<T>, start: nat, size: nat)
    requires size > 0
    ensures forall k :: 0 <= k < |BatchesFrom(s, start, size)| ==>
      0 < |BatchesFrom(s, start, size)[k]| <= size
    ensures forall k :: 0 <= k < |BatchesFrom(s, start, size)| - 1 ==>
      |BatchesFrom(s, start, size)[k]| == size
    decreases |s| - start
  {
    if start < |s| {
      BatchesFromShape(s, start + size, size);
      var bs := BatchesFrom(s, start, size);
      var rest := BatchesFrom(s, start + size, size);
      assert bs[1..] == rest;
      if start + size > |s| {
        assert rest == [];
      }
      forall k | 0 <= k < |bs|
        ensures 0 < |bs[k]| <= size
        ensures k < |bs| - 1 ==> |bs[k]| == size
      {
        if k > 0 {
          assert bs[k] == rest[k - 1];
        }
      }
    }
  }

  /**
   * Every batch is non-empty and holds at most `size` records; all but the
   * last hold exactly `size`.
   */
  lemma BatchesShape<T>(s: seq<T>, size: nat)
    requires size > 0
    ensures forall k :: 0 <= k < |Batches(s, size)| ==> 0 < |Batches(s, size)[k]| <= size
    ensures forall k :: 0 <= k < |Batches(s, size)| - 1 ==> |Batches(s, size)[k]| == size
  {
    BatchesFromShape(s, 0, size);
  }

  lemma {:induction false} MulAtLeast(a: nat, b: nat)
    requires a >= 1
    ensures a * b >= b
    decreases a
  {
    if a > 1 {
      MulAtLeast(a - 1, b);
      assert a * b == (a - 1) * b + b;
    }
  }

  /** Euclidean division is determined by quotient and remainder. */
  lemma DivUnique(n: nat, size: nat, q: nat, r: nat)
    requires size > 0 && r < size && n == q * size + r
    ensures n / size == q
  {
    var q2, r2 := n / size, n % size;
    assert n == q2 * size + r2;
    if q2 > q {
      MulAtLeast(q2 - q, size);
    } else if q2 < q {
      MulAtLeast(q - q2, size);
    }
  }

  /** Adding one `size` to the dividend adds one to the quotient. */
  lemma DivStep(x: nat, size: nat)
    requires size > 0
    ensures (x + size) / size == x / size + 1
  {
    var q, r := x / size, x % size;
    assert x == q * size + r;
    assert x + size == (q + 1) * size + r;
    DivUnique(x + size, size, q + 1, r);
  }

  /** A positive count no larger than `size` needs exactly one batch. */
  lemma CeilDivOne(n: nat, size: nat)
    requires 0 < n <= size
    ensures CeilDiv(n, size) == 1
  {
    DivStep(n - 1, size);
    assert (n - 1) / size == 0;
  }

  lemma {:induction false} BatchesFromCount<T>(s: seq<T>, start: nat, size: nat)
    requires size > 0 && start <= |s|
    ensures |BatchesFrom(s, start, size)| == CeilDiv(|s| - start, size)
    decreases |s| - start
  {
    var n := |s| - start;
    if n == 0 {
      DivUnique(size - 1, size, 0, size - 1);
    } else if n <= size {
      CeilDivOne(n, size);
      assert BatchesFrom(s, start + size, size) == [];
    } else {
      var rest := BatchesFrom(s, start + size, size);
      assert |BatchesFrom(s, start, size)| == 1 + |rest|;
      BatchesFromCount(s, start + size, size);
      assert |rest| == CeilDiv(n - size, size) == (n - 1) / size;
      DivStep(n - 1, size);
      assert CeilDiv(n, size) == (n - 1 + size) / size;
    }
  }

  /** There are `ceil(n / size)` batches; none at all for an empty input. */
  lemma BatchesCount<T>(s: seq<T>, size: nat)
    requires size > 0
    ensures |Batches(s, size)| == CeilDiv(|s|, size)
    ensures |Batches(s, size)| == 0 <==> |s| == 0
  {
    BatchesFromCount(s, 0, size);
    if |s| > 0 {
      DivStep(|s| - 1, size);
    }
  }

  lemma {:induction false} BatchesFromAt<T>(s: seq<T>, start: nat, size: nat, k: nat)
    requires size > 0 && k < |BatchesFrom(s, start, size)|
    ensures start + k * size < |s|
    ensures BatchesFrom(s, start, size)[k] == s[start + k * size..Min(start + k * size + size, |s|)]
    decreases k
  {
    if k > 0 {
      BatchesFromAt(s, start + size, size, k - 1);
      assert start + size + (k - 1) * size == start + k * size;
    }
  }

  /** Batch `k` is the slice `s[k * size : (k + 1) * size]`, clamped at the end. */
  lemma BatchesAt<T>(s: seq<T>, size: nat, k: nat)
    requires size > 0 && k < |Batches(s, size)|
    ensures k * size < |s|
    ensures Batches(s, size)[k] == s[k * size..Min(k * size + size, |s|)]
  {
    BatchesFromAt(s, 0, size, k);
  }
}
