/** When the training phase emits its sub-epoch reconstruction snapshots:
    only in epoch 0, only when `save_reconstructions_first_epoch` is set, and
    only at training-batch indices divisible by the stride 20. */
module Snapshots {

  const Stride := 20

  /** The condition tested after every training batch. */
  predicate Fires(saveFirstEpoch: bool, epoch: nat, batch: nat) {
    saveFirstEpoch && batch % Stride == 0 && epoch == 0
  }

  /** The batch indices, in order, at which a snapshot is taken while an
      epoch enumerates its `numBatches` training batches. */
  function Batches(saveFirstEpoch: bool, epoch: nat, numBatches: nat): (bs: seq<nat>)
    ensures forall i :: 0 <= i < |bs| ==> bs[i] < numBatches && Fires(saveFirstEpoch, epoch, bs[i])
    ensures forall b :: 0 <= b < numBatches && Fires(saveFirstEpoch, epoch, b) ==> b in bs
    ensures forall i, j :: 0 <= i < j < |bs| ==> bs[i] < bs[j]
  {
    if numBatches == 0 then []
    else
      Batches(saveFirstEpoch, epoch, numBatches - 1)
      + (if Fires(saveFirstEpoch, epoch, numBatches - 1) then [numBatches - 1] else [])
  }

  /** The first `m` multiples of the stride: 0, 20, 40, ... */
  function Multiples(m: nat): (ms: seq<nat>)
    ensures |ms| == m
  {
    if m == 0 then [] else Multiples(m - 1) + [Stride * (m - 1)]
  }

  /** Integer division by the stride is pinned down by the enclosing multiples. */
  lemma DivByStride(x: nat, k: nat)
    requires Stride * k <= x < Stride * k + Stride
    ensures x / Stride == k
  {
  }

  /** One more batch adds one snapshot exactly when its index is a multiple
      of the stride. */
  lemma SnapshotCountStep(n: nat)
    requires n > 0
    ensures (n + Stride - 1) / Stride ==
              (n - 1 + Stride - 1) / Stride + (if (n - 1) % Stride == 0 then 1 else 0)
    ensures (n - 1) % Stride == 0 ==> Stride * ((n - 1 + Stride - 1) / Stride) == n - 1
  {
    var q := (n - 1) / Stride;
    var r := (n - 1) % Stride;
    assert n - 1 == Stride * q + r;
    if r == 0 {
      DivByStride(n - 1 + Stride - 1, q);
      DivByStride(n + Stride - 1, q + 1);
    } else {
      DivByStride(n - 1 + Stride - 1, q + 1);
      DivByStride(n + Stride - 1, q + 1);
    }
  }

  /** Enumerating `n` batches of epoch 0 with the option set snapshots
      exactly at 0, 20, 40, ... below `n`, that is ceil(n / 20) times. */
  lemma {:induction false} BatchesAreStrideMultiples(n: nat)
    ensures Batches(true, 0, n) == Multiples((n + Stride - 1) / Stride)
  {
    if n == 0 {
      DivByStride(n + Stride - 1, 0);
    } else {
      BatchesAreStrideMultiples(n - 1);
      SnapshotCountStep(n);
      var m := (n - 1 + Stride - 1) / Stride;
      if (n - 1) % Stride == 0 {
        SnapshotAt(n, m);
      } else {
        NoSnapshotAt(n);
      }
    }
  }

  /** A batch index that is the next multiple of the stride appends it. */
  lemma SnapshotAt(n: nat, m: nat)
    requires n > 0 && Fires(true, 0, n - 1) && Stride * m == n - 1
    requires Batches(true, 0, n - 1) == Multiples(m)
    ensures Batches(true, 0, n) == Multiples(m + 1)
  {
    var prev := Batches(true, 0, n - 1);
    calc {
      Batches(true, 0, n);
      prev + [n - 1];
      Multiples(m) + [Stride * m];
      Multiples(m + 1);
    }
  }

  /** Any other batch index leaves the snapshot list as it was. */
  lemma NoSnapshotAt(n: nat)
    requires n > 0 && !Fires(true, 0, n - 1)
    ensures Batches(true, 0, n) == Batches(true, 0, n - 1)
  {
  }

  /** In every epoch but the first, or with the option off, no snapshot is taken. */
  lemma NoBatchesUnlessFirstEpoch(saveFirstEpoch: bool, epoch: nat, n: nat)
    requires !saveFirstEpoch || epoch != 0
    ensures Batches(saveFirstEpoch, epoch, n) == []
  {
  }
}
