/**
 * Batch iteration (utils/funcs.py): `loop_batch` cuts a list into consecutive
 * batches, `progressbar_batch` re-yields those batches while reporting how many
 * items are done, and `progressbar` yields the items one by one.
 * The generators are modelled as methods that return everything they would yield.
 */
module Funcs {

  /** Python's floored `a % b`: the result has the sign of `b`. */
  function PyMod(a: int, b: int): (r: int)
    requires b != 0
    ensures b > 0 ==> 0 <= r < b
    ensures b < 0 ==> b < r <= 0
  {
    if b > 0 then a % b else if a % b == 0 then 0 else a % b + b
  }

  /** Concatenation of a list of batches. */
  function Flatten<T>(batches: seq<seq<T>>): seq<T>
  {
    if batches == [] then [] else batches[0] + Flatten(batches[1..])
  }

  /** Reference definition: full batches of `k` items, then whatever is left. */
  function Chunks<T>(items: seq<T>, k: nat): seq<seq<T>>
    requires k >= 1
    decreases |items|
  {
    if |items| == 0 then []
    else if |items| <= k then [items]
    else [items[..k]] + Chunks(items[k..], k)
  }

  /**
   * The batch size `loop_batch` effectively uses: a negative size makes
   * `(i+1) % batch_size > 0` false for every item, so every item is its own batch.
   */
  function EffectiveSize(batchSize: int): (k: nat)
    ensures k >= 1
    ensures batchSize > 0 ==> k == batchSize
  {
    if batchSize > 0 then batchSize else 1
  }

  lemma MulBound(k: int, e: int)
    requires k >= 1
    ensures e >= 1 ==> k * e >= k
    ensures e <= -1 ==> k * e <= -k
  {
  }

  /** Euclidean division is unique: `k * d <= x < k * (d + 1)` pins down `x / k`. */
  lemma DivUnique(x: int, k: int, d: int)
    requires k >= 1 && k * d <= x < k * d + k
    ensures x / k == d && x % k == x - k * d
  {
    var d2 := x / k;
    assert k * d2 + x % k == x;
    MulBound(k, d2 - d);
    assert k * (d2 - d) == k * d2 - k * d;
  }

  /**
   * After `q` full batches, the `m`-th item of the current batch ends it exactly
   * when `(i+1) % batch_size > 0` fails, i.e. when the batch is full.
   */
  lemma YieldCondition(n: int, q: nat, k: nat, m: nat, batchSize: int)
    requires batchSize != 0 && k == EffectiveSize(batchSize) && 1 <= m <= k && n == q * k + m
    ensures PyMod(n, batchSize) > 0 <==> m < k
  {
    if batchSize > 0 {
      if m < k {
        DivUnique(q * k + m, k, q);
      } else {
        assert q * k + m == k * (q + 1);
        DivUnique(q * k + m, k, q + 1);
      }
    }
  }

  lemma {:induction false} FlattenAppend<T>(batches: seq<seq<T>>, b: seq<T>)
    ensures Flatten(batches + [b]) == Flatten(batches) + b
  {
    if batches != [] {
      assert (batches + [b])[1..] == batches[1..] + [b];
      FlattenAppend(batches[1..], b);
    }
  }

  /** Adding a batch after a whole number of full batches adds it at the end. */
  lemma {:induction false} ChunksSnoc<T>(prefix: seq<T>, q: nat, k: nat, b: seq<T>)
    requires k >= 1 && |prefix| == q * k && 1 <= |b| <= k
    ensures Chunks(prefix + b, k) == Chunks(prefix, k) + [b]
  {
    if q > 0 {
      assert |prefix| >= k;
      assert (prefix + b)[..k] == prefix[..k];
      assert (prefix + b)[k..] == prefix[k..] + b;
      assert |prefix[k..]| == (q - 1) * k;
      ChunksSnoc(prefix[k..], q - 1, k, b);
      if |prefix| == k {
        assert prefix[k..] == [];
        assert prefix[..k] == prefix;
      }
    } else {
      assert prefix == [];
      assert prefix + b == b;
    }
  }

  /** Concatenating the batches in order gives back the input exactly. */
  lemma {:induction false} ChunksFlatten<T>(items: seq<T>, k: nat)
    requires k >= 1
    ensures Flatten(Chunks(items, k)) == items
    decreases |items|
  {
    if |items| > k {
      ChunksFlatten(items[k..], k);
      assert items[..k] + items[k..] == items;
    }
  }

  /** Every batch but the last has exactly `k` items; the last has between 1 and `k`. */
  lemma {:induction false} ChunksSizes<T>(items: seq<T>, k: nat)
    requires k >= 1
    ensures var c := Chunks(items, k);
      (forall j :: 0 <= j < |c| - 1 ==> |c[j]| == k) &&
      (|c| > 0 ==> 1 <= |c[|c| - 1]| <= k)
    decreases |items|
  {
    if |items| > k {
      ChunksSizes(items[k..], k);
      var c := Chunks(items, k);
      var rest := Chunks(items[k..], k);
      assert c == [items[..k]] + rest;
      assert forall j :: 1 <= j < |c| ==> c[j] == rest[j - 1];
    }
  }

  /** There are ceil(n / k) batches; in particular none for an empty input. */
  lemma {:induction false} ChunksCount<T>(items: seq<T>, k: nat)
    requires k >= 1
    ensures |Chunks(items, k)| == (|items| + k - 1) / k
    decreases |items|
  {
    var n := |items|;
    if n == 0 {
      DivUnique(k - 1, k, 0);
    } else if n <= k {
      DivUnique(n + k - 1, k, 1);
    } else {
      ChunksCount(items[k..], k);
      var x := n - k + k - 1;
      var d := x / k;
      assert k * d + x % k == x;
      DivUnique(n + k - 1, k, d + 1);
    }
  }

  /**
   * `loop_batch(items, batch_size, return_index=True)`: the batches in order,
   * each with the 0-based position `i` of its last item, so `i + 1` is the number
   * of items yielded so far. A zero batch size raises ZeroDivisionError as soon
   * as there is an item, hence the requires.
   */
  method LoopBatch<T>(items: seq<T>, batchSize: int) returns (batches: seq<seq<T>>, lastIndex: seq<int>)
    requires batchSize != 0 || |items| == 0
    ensures batches == Chunks(items, EffectiveSize(batchSize))
    ensures Reported(batches, lastIndex)
  {
    ghost var k := EffectiveSize(batchSize);
    batches, lastIndex := [], [];
    var batch: seq<T> := [];
    ghost var q: nat := 0;
    ghost var start: nat := 0;
    var i := 0;
    while i < |items|
      invariant start <= i <= |items| && (i < |items| ==> start == q * k)
      invariant |batch| < k && batch == items[start..i]
      invariant i == |items| ==> start == i
      invariant batches == Chunks(items[..start], k)
      invariant Reported(batches, lastIndex)
    {
      assert items[start..i + 1] == items[start..i] + [items[i]];
      batch := batch + [items[i]];
      YieldCondition(i + 1, q, k, |batch|, batchSize);
      if PyMod(i + 1, batchSize) > 0 && i + 1 != |items| {
        i := i + 1;
        continue;
      }
      YieldStep(items, start, i, q, k, batch, batches, lastIndex);
      assert i + 1 < |items| ==> i + 1 == (q + 1) * k;
      batches := batches + [batch];
      lastIndex := lastIndex + [i];
      q := q + 1;
      start := i + 1;
      batch := [];
      i := i + 1;
    }
    assert items[..start] == items;
  }

  /** Each batch is reported with the 0-based position of its last item: one less than the items yielded so far. */
  ghost predicate Reported<T>(batches: seq<seq<T>>, lastIndex: seq<int>)
  {
    |lastIndex| == |batches| && forall j :: 0 <= j < |batches| ==> lastIndex[j] + 1 == |Flatten(batches[..j + 1])|
  }

  /** One yield of `loop_batch`: the batch ending at item `i` is the next chunk, reported with index `i`. */
  lemma YieldStep<T>(items: seq<T>, start: nat, i: nat, q: nat, k: nat, batch: seq<T>, batches: seq<seq<T>>, lastIndex: seq<int>)
    requires k >= 1 && start == q * k && start <= i < |items|
    requires batch == items[start..i + 1] && |batch| <= k
    requires batches == Chunks(items[..start], k)
    requires Reported(batches, lastIndex)
    ensures batches + [batch] == Chunks(items[..i + 1], k)
    ensures Reported(batches + [batch], lastIndex + [i])
  {
    assert items[..start] + batch == items[..i + 1];
    ChunksSnoc(items[..start], q, k, batch);
    ChunksFlatten(items[..start], k);
    AppendIndex(batches, lastIndex, batch, i);
  }

  /** Bookkeeping for one yield of `loop_batch`: the reported index stays the running count minus one. */
  lemma AppendIndex<T>(batches: seq<seq<T>>, lastIndex: seq<int>, batch: seq<T>, i: int)
    requires Reported(batches, lastIndex)
    requires i + 1 == |Flatten(batches)| + |batch|
    ensures Reported(batches + [batch], lastIndex + [i])
  {
    var bs := batches + [batch];
    forall j | 0 <= j < |batches| + 1
      ensures (lastIndex + [i])[j] + 1 == |Flatten(bs[..j + 1])|
    {
      if j < |batches| {
        assert bs[..j + 1] == batches[..j + 1];
      } else {
        assert bs[..j + 1] == batches + [batch];
        FlattenAppend(batches, batch);
      }
    }
    assert |lastIndex + [i]| == |bs|;
  }

  /**
   * `progressbar_batch(items, batch_size)`: yields exactly the batches of
   * `loop_batch`, and after each one reports the number of items done so far.
   * The bar itself (its width, time estimate and output stream) is not modelled.
   */
  method ProgressbarBatch<T>(items: seq<T>, batchSize: int) returns (batches: seq<seq<T>>, done: seq<int>)
    requires batchSize != 0 || |items| == 0
    ensures batches == Chunks(items, EffectiveSize(batchSize))
    ensures |done| == |batches|
    ensures forall j :: 0 <= j < |batches| ==> done[j] == |Flatten(batches[..j + 1])|
    ensures |batches| > 0 ==> done[|batches| - 1] == |items|
  {
    var lastIndex;
    batches, lastIndex := LoopBatch(items, batchSize);
    done := [];
    var j := 0;
    while j < |batches|
      invariant 0 <= j <= |batches|
      invariant |done| == j
      invariant forall m :: 0 <= m < j ==> done[m] == lastIndex[m] + 1
    {
      done := done + [lastIndex[j] + 1];
      j := j + 1;
    }
    if |batches| > 0 {
      assert batches[..|batches|] == batches;
      ChunksFlatten(items, EffectiveSize(batchSize));
    }
  }

  /** Batches of one item are the items themselves, wrapped. */
  lemma {:induction false} ChunksOfOne<T>(items: seq<T>)
    ensures var c := Chunks(items, 1);
      |c| == |items| && forall j :: 0 <= j < |items| ==> c[j] == [items[j]]
    decreases |items|
  {
    if |items| > 1 {
      ChunksOfOne(items[1..]);
      var c := Chunks(items, 1);
      assert c == [items[..1]] + Chunks(items[1..], 1);
      assert forall j :: 1 <= j < |items| ==> c[j] == Chunks(items[1..], 1)[j - 1];
    } else if |items| == 1 {
      assert items[..1] == items;
    }
  }

  /** `progressbar(items)`: yields each item on its own, in order. */
  method Progressbar<T>(items: seq<T>) returns (out: seq<T>)
    ensures out == items
  {
    var batches, done := ProgressbarBatch(items, 1);
    ChunksOfOne(items);
    out := [];
    var j := 0;
    while j < |batches|
      invariant 0 <= j <= |batches| == |items|
      invariant out == items[..j]
    {
      assert batches[j] == [items[j]];
      assert items[..j + 1] == items[..j] + [items[j]];
      out := out + [batches[j][0]];
      j := j + 1;
    }
    assert items[..j] == items;
  }
}
