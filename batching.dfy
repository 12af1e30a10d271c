/**
 * The batch partition `uids[i:i+batch] for i in range(0, len(uids), batch)`.
 */
module Batching {

  function Min(a: int, b: int): int {
    if a <= b then a else b
  }

  /** The slices taken from offset `i` on (Python clamps the end of a slice). */
  function BatchesFrom<T>(xs: seq<T>, size: nat, i: nat): seq<seq<T>>
    requires size > 0
    decreases |xs| - i
  {
    if i >= |xs| then []
    else [xs[i .. Min(i + size, |xs|)]] + BatchesFrom(xs, size, i + size)
  }

  function Batches<T>(xs: seq<T>, size: nat): seq<seq<T>>
    requires size > 0
  {
    BatchesFrom(xs, size, 0)
  }

  function Flatten<T>(bs: seq<seq<T>>): seq<T>
    decreases |bs|
  {
    if bs == [] then [] else bs[0] + Flatten(bs[1..])
  }

  lemma {:induction false} FlattenFrom<T>(xs: seq<T>, size: nat, i: nat)
    requires size > 0 && i <= |xs|
    ensures Flatten(BatchesFrom(xs, size, i)) == xs[i..]
    decreases |xs| - i
  {
    if i < |xs| {
      var bs := BatchesFrom(xs, size, i);
      assert bs[1..] == BatchesFrom(xs, size, i + size);
      if i + size <= |xs| {
        FlattenFrom(xs, size, i + size);
        assert xs[i..] == xs[i .. i + size] + xs[i + size..];
      } else {
        assert BatchesFrom(xs, size, i + size) == [];
      }
    }
  }

  /** The batches, concatenated in order, give back the whole UID list. */
  lemma BatchesCover<T>(xs: seq<T>, size: nat)
    requires size > 0
    ensures Flatten(Batches(xs, size)) == xs
  {
    FlattenFrom(xs, size, 0);
  }

  lemma {:induction false} ShapeFrom<T>(xs: seq<T>, size: nat, i: nat)
    requires size > 0 && i <= |xs|
    ensures var bs := BatchesFrom(xs, size, i);
            forall j | 0 <= j < |bs| ::
              && i + j * size < |xs|
              && bs[j] == xs[i + j * size .. Min(i + (j + 1) * size, |xs|)]
    decreases |xs| - i
  {
    if i < |xs| {
      var bs := BatchesFrom(xs, size, i);
      var rest := BatchesFrom(xs, size, i + size);
      assert bs == [xs[i .. Min(i + size, |xs|)]] + rest;
      if i + size <= |xs| {
        ShapeFrom(xs, size, i + size);
        forall j | 1 <= j < |bs|
          ensures i + j * size < |xs| && bs[j] == xs[i + j * size .. Min(i + (j + 1) * size, |xs|)]
        {
          assert bs[j] == rest[j - 1];
          assert (i + size) + (j - 1) * size == i + j * size;
          assert (i + size) + (j - 1 + 1) * size == i + (j + 1) * size;
        }
      } else {
        assert rest == [];
      }
    }
  }

  /**
   * Batch `j` is exactly the slice `xs[j*size .. (j+1)*size]` (clamped):
   * the batches are contiguous, disjoint and in order.
   */
  lemma BatchesContiguous<T>(xs: seq<T>, size: nat)
    requires size > 0
    ensures var bs := Batches(xs, size);
            forall j | 0 <= j < |bs| ::
              && j * size < |xs|
              && bs[j] == xs[j * size .. Min((j + 1) * size, |xs|)]
  {
    ShapeFrom(xs, size, 0);
  }

  lemma {:induction false} SizesFrom<T>(xs: seq<T>, size: nat, i: nat)
    requires size > 0
    ensures forall j | 0 <= j < |BatchesFrom(xs, size, i)| :: 0 < |BatchesFrom(xs, size, i)[j]| <= size
    ensures forall j | 0 <= j < |BatchesFrom(xs, size, i)| - 1 :: |BatchesFrom(xs, size, i)[j]| == size
    decreases |xs| - i
  {
    if i < |xs| {
      SizesFrom(xs, size, i + size);
      var bs := BatchesFrom(xs, size, i);
      var rest := BatchesFrom(xs, size, i + size);
      assert bs == [xs[i .. Min(i + size, |xs|)]] + rest;
      if rest != [] {
        assert i + size < |xs|;
      }
      forall j | 1 <= j < |bs| ensures 0 < |bs[j]| <= size && (j < |bs| - 1 ==> |bs[j]| == size) {
        assert bs[j] == rest[j - 1];
      }
    }
  }

  /** Every batch is non-empty and at most `size` long; all but the last are exactly `size` long. */
  lemma BatchSizes<T>(xs: seq<T>, size: nat)
    requires size > 0
    ensures var bs := Batches(xs, size);
            forall j | 0 <= j < |bs| ::
              && 0 < |bs[j]| <= size
              && (j < |bs| - 1 ==> |bs[j]| == size)
  {
    SizesFrom(xs, size, 0);
  }
}
