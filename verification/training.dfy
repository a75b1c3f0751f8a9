/** The epoch loop of `train_vq_vae`, as a state machine driven by the
    per-epoch mean losses. Each epoch trains (taking sub-epoch snapshots in
    epoch 0), appends the training loss, runs the early-stopping check, and,
    unless that stops or raises, evaluates, appends the test loss, emits the
    monitoring images and optionally saves the parameters. The forward and
    backward passes are not modelled: the losses they produce are inputs. */
module Training {
  import opened PySemantics
  import EarlyStopping
  import Snapshots
  import Checkpoint

  /** The settings the loop reads. */
  datatype Config = Config(
    dataset: string,
    maxEpochs: int,
    earlyStoppingEpochs: int,
    saveModel: bool,
    saveReconstructionsFirstEpoch: bool)

  /** What the data loaders and the model produce, as far as control flow is
      concerned: how many batches each loader yields per pass (fixed for the
      run) and the mean training and test loss of each epoch. */
  datatype Data = Data(
    numTrainBatches: nat,
    numTestBatches: nat,
    trainLoss: seq<real>,
    testLoss: seq<real>)

  /** The image tags written to the metrics sink. */
  datatype Tag = EpochOneReconstructions | Original | Reconstruction

  /** One `add_image(tag, grid, step)` call. */
  datatype ImageEvent = ImageEvent(tag: Tag, step: nat)

  /** `Running` between epochs; `Stopped` after the early-stopping `break`;
      `Crashed` once an exception has escaped the loop. */
  datatype Status = Running | Stopped | Crashed(error: PyError)

  datatype State = State(
    trainLosses: seq<real>,
    testLosses: seq<real>,
    images: seq<ImageEvent>,
    saves: seq<Checkpoint.Save>,
    status: Status)

  const Initial := State([], [], [], [], Running)

  /** Python's `e in range(stop)`. */
  predicate InRange(e: int, stop: int) {
    0 <= e < stop
  }

  /** The number of epochs `range(max_epochs)` yields: the indices below it
      are exactly those of the range, so a non-positive bound runs none. */
  function EpochCount(c: Config): (n: nat)
    ensures forall e :: InRange(e, n) <==> InRange(e, c.maxEpochs)
  {
    if c.maxEpochs > 0 then c.maxEpochs else 0
  }

  /** The images the training phase of `epoch` emits, one per snapshot batch. */
  function SnapshotEvents(c: Config, epoch: nat, numBatches: nat): (evs: seq<ImageEvent>)
    ensures |evs| == |Snapshots.Batches(c.saveReconstructionsFirstEpoch, epoch, numBatches)|
    ensures forall i :: 0 <= i < |evs| ==>
              evs[i] == ImageEvent(EpochOneReconstructions,
                                   Snapshots.Batches(c.saveReconstructionsFirstEpoch, epoch, numBatches)[i])
  {
    var bs := Snapshots.Batches(c.saveReconstructionsFirstEpoch, epoch, numBatches);
    seq(|bs|, i requires 0 <= i < |bs| => ImageEvent(EpochOneReconstructions, bs[i]))
  }

  /** One iteration of the epoch loop, started in a running state. */
  function Epoch(c: Config, data: Data, st: State, epoch: nat): (r: State)
    requires st.status.Running?
    requires epoch < |data.trainLoss| && epoch < |data.testLoss|
    ensures r.trainLosses == st.trainLosses + [data.trainLoss[epoch]]
         || (r.status.Crashed? && r.trainLosses == st.trainLosses)
    ensures r.trainLosses == st.trainLosses ==>
              data.numTrainBatches == 0
              || (c.saveReconstructionsFirstEpoch && epoch == 0 && data.numTestBatches == 0)
    ensures r.status.Running? ==> r.testLosses == st.testLosses + [data.testLoss[epoch]]
    ensures !r.status.Running? ==> r.testLosses == st.testLosses
    ensures r.status.Stopped? ==>
              EarlyStopping.Check(r.trainLosses, c.earlyStoppingEpochs) == EarlyStopping.Stop
    ensures !r.status.Running? ==> r.saves == st.saves
    ensures r.status.Running? && !c.saveModel ==> r.saves == st.saves
  {
    if data.numTrainBatches == 0 then
      // no batch ran, so the mean at train.py:71 divides by zero
      st.(status := Crashed(ZeroDivisionError))
    else if c.saveReconstructionsFirstEpoch && epoch == 0 && data.numTestBatches == 0 then
      // the snapshot after batch 0 (train.py:64-66) reads `x_test`, which the empty test loader never bound
      st.(status := Crashed(UnboundLocalError))
    else
      var images := st.images + SnapshotEvents(c, epoch, data.numTrainBatches);
      var train := st.trainLosses + [data.trainLoss[epoch]];
      match EarlyStopping.Check(train, c.earlyStoppingEpochs)
      case Raised(e) => State(train, st.testLosses, images, st.saves, Crashed(e))
      case Stop => State(train, st.testLosses, images, st.saves, Stopped)
      case Continue =>
        if data.numTestBatches == 0 then
          // epoch 0 reads the unbound `x_test` (train.py:92); a later epoch would
          // emit its reconstruction (train.py:95-96) and then divide by zero
          // (train.py:98), though no run reaches a later epoch with this loader
          if epoch == 0 then State(train, st.testLosses, images, st.saves, Crashed(UnboundLocalError))
          else State(train, st.testLosses, images + [ImageEvent(Reconstruction, epoch)], st.saves,
                     Crashed(ZeroDivisionError))
        else
          var shown := images
                       + (if epoch == 0 then [ImageEvent(Original, 0)] else [])
                       + [ImageEvent(Reconstruction, epoch)];
          var saves := st.saves
                       + (if c.saveModel then [Checkpoint.Save(epoch, Checkpoint.PathFor(c.dataset))] else []);
          State(train, st.testLosses + [data.testLoss[epoch]], shown, saves, Running)
  }

  /** The state after the first `k` iterations of the loop; once the loop has
      stopped or crashed, later iterations do not run. */
  function RunEpochs(c: Config, data: Data, k: nat): (st: State)
    requires k <= |data.trainLoss| && k <= |data.testLoss|
    ensures |st.testLosses| <= |st.trainLosses| <= k
    ensures st.status.Running? ==> |st.trainLosses| == k && |st.testLosses| == k
  {
    if k == 0 then Initial
    else
      var st := RunEpochs(c, data, k - 1);
      if st.status.Running? then Epoch(c, data, st, k - 1) else st
  }

  /** The whole loop, `for epoch in range(max_epochs)`. A final status of
      `Running` means the range was exhausted; `Stopped`, that the
      early-stopping rule broke out of it; `Crashed`, that an exception
      escaped. */
  function Train(c: Config, data: Data): (st: State)
    requires |data.trainLoss| >= EpochCount(c) && |data.testLoss| >= EpochCount(c)
    ensures |st.trainLosses| <= EpochCount(c)
    ensures |st.testLosses| <= |st.trainLosses| <= |st.testLosses| + 1
    ensures st.trainLosses == data.trainLoss[..|st.trainLosses|]
    ensures st.testLosses == data.testLoss[..|st.testLosses|]
    ensures st.status.Running? ==>
              |st.trainLosses| == EpochCount(c) && |st.testLosses| == EpochCount(c)
    ensures st.status.Stopped? ==>
              && |st.testLosses| == |st.trainLosses| - 1
              && |st.trainLosses| - 1 >= c.earlyStoppingEpochs
              && EarlyStopping.Check(st.trainLosses, c.earlyStoppingEpochs) == EarlyStopping.Stop
    ensures |st.saves| == (if c.saveModel then |st.testLosses| else 0)
    ensures forall i :: 0 <= i < |st.saves| ==>
              st.saves[i] == Checkpoint.Save(i, Checkpoint.PathFor(c.dataset))
    ensures st.images == ImagesFor(c, data, |st.trainLosses|, |st.testLosses|)
  {
    RunInvariant(c, data, EpochCount(c));
    var st := RunEpochs(c, data, EpochCount(c));
    SavesAreEveryEvaluatedEpoch(c, |st.testLosses|);
    st
  }

  /** The saves after `n` evaluated epochs: one per epoch when saving is on,
      every one to the dataset's checkpoint path. */
  function SavesFor(c: Config, n: nat): (saves: seq<Checkpoint.Save>)
    ensures |saves| == if c.saveModel then n else 0
  {
    if n == 0 || !c.saveModel then []
    else SavesFor(c, n - 1) + [Checkpoint.Save(n - 1, Checkpoint.PathFor(c.dataset))]
  }

  /** Save `i` is of epoch `i`, always to the dataset's one checkpoint path. */
  lemma {:induction false} SavesAreEveryEvaluatedEpoch(c: Config, n: nat)
    ensures forall i :: 0 <= i < |SavesFor(c, n)| ==>
              SavesFor(c, n)[i] == Checkpoint.Save(i, Checkpoint.PathFor(c.dataset))
  {
    if n > 0 && c.saveModel {
      SavesAreEveryEvaluatedEpoch(c, n - 1);
    }
  }

  /** `Reconstruction` images for epochs 0 .. n-1, in order. */
  function Reconstructions(n: nat): (evs: seq<ImageEvent>)
    ensures |evs| == n
    ensures forall i :: 0 <= i < n ==> evs[i] == ImageEvent(Reconstruction, i)
  {
    if n == 0 then [] else Reconstructions(n - 1) + [ImageEvent(Reconstruction, n - 1)]
  }

  /** The images emitted once `nTrain` training phases and `nTest` evaluations
      have completed: the epoch-0 snapshots, then `Original` once, then one
      `Reconstruction` per evaluated epoch. */
  function ImagesFor(c: Config, data: Data, nTrain: nat, nTest: nat): seq<ImageEvent> {
    (if nTrain >= 1 then SnapshotEvents(c, 0, data.numTrainBatches) else [])
    + (if nTest >= 1 then [ImageEvent(Original, 0)] else [])
    + Reconstructions(nTest)
  }

  /** The early-stopping check at the end of epoch `j` let the loop go on. */
  ghost predicate PassedCheck(data: Data, d: int, j: nat)
    requires j < |data.trainLoss|
  {
    EarlyStopping.Check(data.trainLoss[..j + 1], d) == EarlyStopping.Continue
  }

  /** What holds of the state after `k` iterations. */
  ghost predicate Invariant(c: Config, data: Data, k: nat, st: State) {
    HistoryInvariant(c, data, k, st) && OutputInvariant(c, data, st)
  }

  /** The loss histories and the status after `k` iterations. */
  ghost predicate HistoryInvariant(c: Config, data: Data, k: nat, st: State) {
    var d := c.earlyStoppingEpochs;
    && |st.trainLosses| <= k
    && |st.trainLosses| <= |data.trainLoss|
    && |st.testLosses| <= |data.testLoss|
    && st.trainLosses == data.trainLoss[..|st.trainLosses|]
    && st.testLosses == data.testLoss[..|st.testLosses|]
    && |st.testLosses| <= |st.trainLosses| <= |st.testLosses| + 1
    && (st.status.Running? ==> |st.trainLosses| == k && |st.testLosses| == k)
    && (st.status.Stopped? ==>
          |st.testLosses| + 1 == |st.trainLosses|
          && EarlyStopping.Check(st.trainLosses, d) == EarlyStopping.Stop)
    && (forall j :: 0 <= j < |st.testLosses| ==> PassedCheck(data, d, j))
    && (|st.testLosses| > 0 ==> data.numTestBatches > 0)
    && (st.status.Crashed? ==>
          data.numTrainBatches == 0 || data.numTestBatches == 0
          || (st.status.error == ValueError && EarlyStopping.Check(st.trainLosses, d).Raised?))
  }

  /** The saves and images, as closed forms of the history lengths. */
  ghost predicate OutputInvariant(c: Config, data: Data, st: State) {
    && st.saves == SavesFor(c, |st.testLosses|)
    && st.images == ImagesFor(c, data, |st.trainLosses|, |st.testLosses|)
  }

  /** The invariant holds after any number of iterations. */
  lemma {:induction false} RunInvariant(c: Config, data: Data, k: nat)
    requires k <= |data.trainLoss| && k <= |data.testLoss|
    ensures Invariant(c, data, k, RunEpochs(c, data, k))
  {
    if k > 0 {
      RunInvariant(c, data, k - 1);
      var st := RunEpochs(c, data, k - 1);
      if st.status.Running? {
        assert RunEpochs(c, data, k) == Epoch(c, data, st, k - 1);
        EpochPreservesInvariant(c, data, st, k - 1);
      } else {
        assert RunEpochs(c, data, k) == st;
        HaltedStateKeepsInvariant(c, data, st, k - 1);
      }
    }
  }

  /** A stopped or crashed state satisfies the invariant at every later count. */
  lemma HaltedStateKeepsInvariant(c: Config, data: Data, st: State, k: nat)
    requires Invariant(c, data, k, st) && !st.status.Running?
    ensures Invariant(c, data, k + 1, st)
  {
  }

  /** One iteration from a running state re-establishes the invariant one
      epoch further on. */
  lemma EpochPreservesInvariant(c: Config, data: Data, st: State, epoch: nat)
    requires epoch < |data.trainLoss| && epoch < |data.testLoss|
    requires st.status.Running?
    requires Invariant(c, data, epoch, st)
    ensures Invariant(c, data, epoch + 1, Epoch(c, data, st, epoch))
  {
    var r := Epoch(c, data, st, epoch);
    assert |st.trainLosses| == epoch && |st.testLosses| == epoch;
    if data.numTrainBatches == 0
       || (c.saveReconstructionsFirstEpoch && epoch == 0 && data.numTestBatches == 0) {
      assert r == st.(status := r.status);
      CrashKeepsInvariant(c, data, st, r.status, epoch);
    } else {
      TrainedEpochKeepsInvariant(c, data, st, epoch);
    }
  }

  /** An empty loader crashes the epoch before its loss is recorded. */
  lemma CrashKeepsInvariant(c: Config, data: Data, st: State, s: Status, epoch: nat)
    requires st.status.Running? && s.Crashed?
    requires data.numTrainBatches == 0 || data.numTestBatches == 0
    requires Invariant(c, data, epoch, st)
    ensures Invariant(c, data, epoch + 1, st.(status := s))
  {
  }

  /** The epoch got past its training phase and recorded its loss. */
  lemma TrainedEpochKeepsInvariant(c: Config, data: Data, st: State, epoch: nat)
    requires epoch < |data.trainLoss| && epoch < |data.testLoss|
    requires st.status.Running?
    requires Invariant(c, data, epoch, st)
    requires data.numTrainBatches > 0
    requires !(c.saveReconstructionsFirstEpoch && epoch == 0 && data.numTestBatches == 0)
    ensures Invariant(c, data, epoch + 1, Epoch(c, data, st, epoch))
  {
    var images := st.images + SnapshotEvents(c, epoch, data.numTrainBatches);
    TrainedImages(c, data, st, epoch);
    var v := EarlyStopping.Check(st.trainLosses + [data.trainLoss[epoch]], c.earlyStoppingEpochs);
    if v.Continue? && data.numTestBatches > 0 {
      EvaluatedEpochKeepsInvariant(c, data, st, epoch, images);
    } else {
      assert |st.testLosses| == epoch;
      HaltedEpoch(c, data, st, epoch);
      HaltedEpochKeepsInvariant(c, data, st, epoch, images, Epoch(c, data, st, epoch).status);
    }
  }

  /** The images after a training phase: the earlier ones plus this epoch's snapshots. */
  lemma TrainedImages(c: Config, data: Data, st: State, epoch: nat)
    requires Invariant(c, data, epoch, st) && st.status.Running?
    ensures st.images + SnapshotEvents(c, epoch, data.numTrainBatches) == ImagesFor(c, data, epoch + 1, epoch)
  {
    if epoch > 0 {
      Snapshots.NoBatchesUnlessFirstEpoch(c.saveReconstructionsFirstEpoch, epoch, data.numTrainBatches);
      assert SnapshotEvents(c, epoch, data.numTrainBatches) == [];
    }
  }

  /** An epoch that trained but was not evaluated: it stopped, `max` raised,
      or the empty test loader crashed it. Only epoch 0 can meet an empty test
      loader here, since a later one would have evaluated before. */
  lemma HaltedEpoch(c: Config, data: Data, st: State, epoch: nat)
    requires epoch < |data.trainLoss| && epoch < |data.testLoss|
    requires st.status.Running? && |st.testLosses| == epoch
    requires epoch > 0 ==> data.numTestBatches > 0
    requires data.numTrainBatches > 0
    requires !(c.saveReconstructionsFirstEpoch && epoch == 0 && data.numTestBatches == 0)
    requires !(EarlyStopping.Check(st.trainLosses + [data.trainLoss[epoch]], c.earlyStoppingEpochs).Continue?
               && data.numTestBatches > 0)
    ensures var r := Epoch(c, data, st, epoch);
            var v := EarlyStopping.Check(st.trainLosses + [data.trainLoss[epoch]], c.earlyStoppingEpochs);
            && r == State(st.trainLosses + [data.trainLoss[epoch]], st.testLosses,
                          st.images + SnapshotEvents(c, epoch, data.numTrainBatches), st.saves, r.status)
            && (r.status.Crashed? || (r.status.Stopped? && v == EarlyStopping.Stop))
            && (r.status.Crashed? ==> data.numTestBatches == 0 || (r.status.error == ValueError && v.Raised?))
  {
  }

  /** The epoch stopped or raised after recording its training loss. */
  lemma HaltedEpochKeepsInvariant(c: Config, data: Data, st: State, epoch: nat, images: seq<ImageEvent>, s: Status)
    requires epoch < |data.trainLoss|
    requires st.status.Running?
    requires Invariant(c, data, epoch, st)
    requires images == ImagesFor(c, data, epoch + 1, epoch)
    requires s.Crashed? || (s.Stopped? && EarlyStopping.Check(st.trainLosses + [data.trainLoss[epoch]], c.earlyStoppingEpochs) == EarlyStopping.Stop)
    requires s.Crashed? ==>
               data.numTestBatches == 0
               || (s.error == ValueError && EarlyStopping.Check(st.trainLosses + [data.trainLoss[epoch]], c.earlyStoppingEpochs).Raised?)
    ensures Invariant(c, data, epoch + 1, State(st.trainLosses + [data.trainLoss[epoch]], st.testLosses, images, st.saves, s))
  {
    assert st.trainLosses + [data.trainLoss[epoch]] == data.trainLoss[..epoch + 1];
  }

  /** The epoch passed the check and was evaluated. */
  lemma EvaluatedEpochKeepsInvariant(c: Config, data: Data, st: State, epoch: nat, images: seq<ImageEvent>)
    requires epoch < |data.trainLoss| && epoch < |data.testLoss|
    requires st.status.Running?
    requires Invariant(c, data, epoch, st)
    requires data.numTrainBatches > 0 && data.numTestBatches > 0
    requires images == st.images + SnapshotEvents(c, epoch, data.numTrainBatches)
    requires images == ImagesFor(c, data, epoch + 1, epoch)
    requires EarlyStopping.Check(st.trainLosses + [data.trainLoss[epoch]], c.earlyStoppingEpochs) == EarlyStopping.Continue
    ensures Invariant(c, data, epoch + 1, Epoch(c, data, st, epoch))
  {
    var shown := images
                 + (if epoch == 0 then [ImageEvent(Original, 0)] else [])
                 + [ImageEvent(Reconstruction, epoch)];
    var saves := st.saves
                 + (if c.saveModel then [Checkpoint.Save(epoch, Checkpoint.PathFor(c.dataset))] else []);
    var r := State(st.trainLosses + [data.trainLoss[epoch]], st.testLosses + [data.testLoss[epoch]], shown, saves, Running);
    assert Epoch(c, data, st, epoch) == r;
    EvaluatedStateInvariant(c, data, st, epoch, images);
  }

  /** The state an evaluated epoch leaves behind, written out. */
  lemma EvaluatedStateInvariant(c: Config, data: Data, st: State, epoch: nat, images: seq<ImageEvent>)
    requires epoch < |data.trainLoss| && epoch < |data.testLoss|
    requires Invariant(c, data, epoch, st) && st.status.Running?
    requires data.numTestBatches > 0
    requires images == ImagesFor(c, data, epoch + 1, epoch)
    requires EarlyStopping.Check(st.trainLosses + [data.trainLoss[epoch]], c.earlyStoppingEpochs) == EarlyStopping.Continue
    ensures Invariant(c, data, epoch + 1,
              State(st.trainLosses + [data.trainLoss[epoch]],
                    st.testLosses + [data.testLoss[epoch]],
                    images + (if epoch == 0 then [ImageEvent(Original, 0)] else []) + [ImageEvent(Reconstruction, epoch)],
                    st.saves + (if c.saveModel then [Checkpoint.Save(epoch, Checkpoint.PathFor(c.dataset))] else []),
                    Running))
  {
    var r := State(st.trainLosses + [data.trainLoss[epoch]],
                   st.testLosses + [data.testLoss[epoch]],
                   images + (if epoch == 0 then [ImageEvent(Original, 0)] else []) + [ImageEvent(Reconstruction, epoch)],
                   st.saves + (if c.saveModel then [Checkpoint.Save(epoch, Checkpoint.PathFor(c.dataset))] else []),
                   Running);
    EvaluatedHistories(c, data, st, epoch);
    assert |st.trainLosses| == epoch && |st.testLosses| == epoch;
    assert r.saves == SavesFor(c, epoch + 1);
    EvaluatedImages(c, data, epoch, images);
    assert OutputInvariant(c, data, r);
  }

  /** The histories an evaluated epoch leaves behind. */
  lemma EvaluatedHistories(c: Config, data: Data, st: State, epoch: nat)
    requires epoch < |data.trainLoss| && epoch < |data.testLoss|
    requires HistoryInvariant(c, data, epoch, st) && st.status.Running?
    requires data.numTestBatches > 0
    requires EarlyStopping.Check(st.trainLosses + [data.trainLoss[epoch]], c.earlyStoppingEpochs) == EarlyStopping.Continue
    ensures HistoryInvariant(c, data, epoch + 1,
              State(st.trainLosses + [data.trainLoss[epoch]], st.testLosses + [data.testLoss[epoch]],
                    [], [], Running))
  {
    assert |st.trainLosses| == epoch && |st.testLosses| == epoch;
    assert data.trainLoss[..epoch + 1] == data.trainLoss[..epoch] + [data.trainLoss[epoch]];
    assert data.testLoss[..epoch + 1] == data.testLoss[..epoch] + [data.testLoss[epoch]];
    PassedChecksExtend(data, c.earlyStoppingEpochs, st.trainLosses, epoch);
  }

  /** An epoch that passed the check extends the run of passed checks by one. */
  lemma PassedChecksExtend(data: Data, d: int, train: seq<real>, epoch: nat)
    requires epoch < |data.trainLoss|
    requires train == data.trainLoss[..epoch]
    requires forall j :: 0 <= j < epoch ==> PassedCheck(data, d, j)
    requires EarlyStopping.Check(train + [data.trainLoss[epoch]], d) == EarlyStopping.Continue
    ensures forall j :: 0 <= j < epoch + 1 ==> PassedCheck(data, d, j)
  {
    forall j | 0 <= j < epoch + 1
      ensures PassedCheck(data, d, j)
    {
      if j == epoch {
        assert data.trainLoss[..epoch + 1] == data.trainLoss[..epoch] + [data.trainLoss[epoch]];
      }
    }
  }

  /** Evaluating one more epoch extends the image sequence as `ImagesFor` predicts. */
  lemma EvaluatedImages(c: Config, data: Data, epoch: nat, images: seq<ImageEvent>)
    requires images == ImagesFor(c, data, epoch + 1, epoch)
    ensures images + (if epoch == 0 then [ImageEvent(Original, 0)] else []) + [ImageEvent(Reconstruction, epoch)]
         == ImagesFor(c, data, epoch + 1, epoch + 1)
  {
    var snaps := SnapshotEvents(c, 0, data.numTrainBatches);
    if epoch == 0 {
      assert images == snaps;
    } else {
      assert images == snaps + [ImageEvent(Original, 0)] + Reconstructions(epoch);
    }
  }
}
