/** Properties of whole runs of the training loop. */
module TrainingRuns {
  import opened PySemantics
  import EarlyStopping
  import Snapshots
  import Checkpoint
  import opened Training

  /** The early-stopping rule fires at the end of epoch `e`. */
  ghost predicate FiresAt(data: Data, d: int, e: nat)
    requires e < |data.trainLoss|
  {
    EarlyStopping.Check(data.trainLoss[..e + 1], d) == EarlyStopping.Stop
  }

  /** Once the loop has stopped or crashed, running more iterations changes nothing. */
  lemma {:induction false} HaltedIsFinal(c: Config, data: Data, j: nat, k: nat)
    requires j <= k <= |data.trainLoss| && k <= |data.testLoss|
    requires !RunEpochs(c, data, j).status.Running?
    ensures RunEpochs(c, data, k) == RunEpochs(c, data, j)
  {
    if k > j {
      HaltedIsFinal(c, data, j, k - 1);
    }
  }

  /** With a window of at least two epochs and non-empty loaders the run never
      crashes, and it stops exactly at the first epoch whose loss is worse
      than every loss in its window; if there is none it runs all epochs. */
  lemma StopsAtFirstFiringEpoch(c: Config, data: Data)
    requires |data.trainLoss| >= EpochCount(c) && |data.testLoss| >= EpochCount(c)
    requires c.earlyStoppingEpochs >= 2
    requires data.numTrainBatches > 0 && data.numTestBatches > 0
    ensures !Train(c, data).status.Crashed?
    ensures Train(c, data).status.Stopped? <==>
              exists e :: 0 <= e < EpochCount(c) && FiresAt(data, c.earlyStoppingEpochs, e)
    ensures Train(c, data).status.Stopped? ==>
              && FiresAt(data, c.earlyStoppingEpochs, |Train(c, data).trainLosses| - 1)
              && forall e :: 0 <= e < |Train(c, data).trainLosses| - 1 ==> !FiresAt(data, c.earlyStoppingEpochs, e)
  {
    var d := c.earlyStoppingEpochs;
    var n := EpochCount(c);
    RunInvariant(c, data, n);
    var st := Train(c, data);
    assert st == RunEpochs(c, data, n);
    EarlyStopping.RaisesIffEmptyWindow(st.trainLosses, d);
    forall e | 0 <= e < |st.testLosses|
      ensures !FiresAt(data, d, e)
    {
      assert PassedCheck(data, d, e);
    }
    if st.status.Stopped? {
      assert st.trainLosses == data.trainLoss[..|st.trainLosses|];
      assert FiresAt(data, d, |st.trainLosses| - 1);
    }
  }

  /** With `early_stopping_epochs <= 0` the first epoch's check calls `max` on
      an empty slice: the run raises `ValueError` after one training phase,
      before any evaluation or save. */
  lemma NonPositiveDeltaRaisesAtFirstEpoch(c: Config, data: Data)
    requires |data.trainLoss| >= EpochCount(c) && |data.testLoss| >= EpochCount(c)
    requires c.earlyStoppingEpochs <= 0 && EpochCount(c) >= 1
    requires data.numTrainBatches > 0
    requires !(c.saveReconstructionsFirstEpoch && data.numTestBatches == 0)
    ensures Train(c, data).status == Crashed(ValueError)
    ensures |Train(c, data).trainLosses| == 1 && Train(c, data).testLosses == []
    ensures Train(c, data).saves == []
  {
    var first := RunEpochs(c, data, 1);
    assert RunEpochs(c, data, 0) == Initial;
    assert first == Epoch(c, data, Initial, 0);
    EarlyStopping.RaisesIffEmptyWindow([data.trainLoss[0]], c.earlyStoppingEpochs);
    assert Initial.trainLosses + [data.trainLoss[0]] == [data.trainLoss[0]];
    assert EarlyStopping.Check([data.trainLoss[0]], c.earlyStoppingEpochs).Raised?;
    assert first.status == Crashed(ValueError);
    HaltedIsFinal(c, data, 1, EpochCount(c));
  }

  /** With `early_stopping_epochs == 1` the first epoch passes (the history is
      not longer than 1) and the second calls `max` on the empty slice
      `history[-1:-1]`: the run raises `ValueError` after one full epoch. */
  lemma DeltaOneRaisesAtSecondEpoch(c: Config, data: Data)
    requires |data.trainLoss| >= EpochCount(c) && |data.testLoss| >= EpochCount(c)
    requires c.earlyStoppingEpochs == 1 && EpochCount(c) >= 2
    requires data.numTrainBatches > 0 && data.numTestBatches > 0
    ensures Train(c, data).status == Crashed(ValueError)
    ensures |Train(c, data).trainLosses| == 2 && |Train(c, data).testLosses| == 1
  {
    RunInvariant(c, data, 1);
    var first := RunEpochs(c, data, 1);
    assert first.status.Running?;
    var second := RunEpochs(c, data, 2);
    EarlyStopping.RaisesIffEmptyWindow(first.trainLosses + [data.trainLoss[1]], 1);
    assert second.status == Crashed(ValueError);
    HaltedIsFinal(c, data, 2, EpochCount(c));
  }

  /** The monitoring images of a run: sub-epoch snapshots only in epoch 0,
      only with the option set, only at batch indices divisible by 20;
      `Original` exactly once, at step 0, when epoch 0 was evaluated; and one
      `Reconstruction` per evaluated epoch, stepped by the epoch index. */
  lemma ImageSchedule(c: Config, data: Data)
    requires |data.trainLoss| >= EpochCount(c) && |data.testLoss| >= EpochCount(c)
    ensures var imgs := Train(c, data).images;
            && (forall i :: 0 <= i < |imgs| && imgs[i].tag == EpochOneReconstructions ==>
                  && c.saveReconstructionsFirstEpoch
                  && imgs[i].step % Snapshots.Stride == 0
                  && imgs[i].step < data.numTrainBatches)
            && (forall i :: 0 <= i < |imgs| && imgs[i].tag == Original ==> imgs[i].step == 0)
            && (forall i, j :: 0 <= i < j < |imgs| ==> !(imgs[i].tag == Original && imgs[j].tag == Original))
            && ((exists i :: 0 <= i < |imgs| && imgs[i].tag == Original) <==> |Train(c, data).testLosses| >= 1)
  {
    var st := Train(c, data);
    var imgs := st.images;
    var nTest := |st.testLosses|;
    var snaps := if |st.trainLosses| >= 1 then SnapshotEvents(c, 0, data.numTrainBatches) else [];
    var orig: seq<ImageEvent> := if nTest >= 1 then [ImageEvent(Original, 0)] else [];
    var recs := Reconstructions(nTest);
    assert imgs == snaps + orig + recs;
    forall i | 0 <= i < |imgs|
      ensures imgs[i].tag == Original <==> (nTest >= 1 && i == |snaps|)
      ensures imgs[i].tag == Original ==> imgs[i].step == 0
      ensures imgs[i].tag == EpochOneReconstructions ==>
                c.saveReconstructionsFirstEpoch && imgs[i].step % Snapshots.Stride == 0 && imgs[i].step < data.numTrainBatches
    {
      if i < |snaps| {
        assert imgs[i] == snaps[i];
        var b := Snapshots.Batches(c.saveReconstructionsFirstEpoch, 0, data.numTrainBatches)[i];
        assert snaps[i] == ImageEvent(EpochOneReconstructions, b);
        assert Snapshots.Fires(c.saveReconstructionsFirstEpoch, 0, b);
      } else if i < |snaps| + |orig| {
        assert imgs[i] == orig[i - |snaps|];
      } else {
        assert imgs[i] == recs[i - |snaps| - |orig|];
      }
    }
    if nTest >= 1 {
      assert imgs[|snaps|].tag == Original;
    }
  }

  /** Every save overwrites the one checkpoint file of the dataset, so after
      a run the disk holds exactly the parameters of the last evaluated epoch,
      or nothing when saving is off or no epoch was evaluated. */
  lemma LastSaveWins(c: Config, data: Data)
    requires |data.trainLoss| >= EpochCount(c) && |data.testLoss| >= EpochCount(c)
    ensures var st := Train(c, data);
            Checkpoint.Persist(map[], st.saves) ==
              if c.saveModel && |st.testLosses| > 0
              then map[Checkpoint.PathFor(c.dataset) := |st.testLosses| - 1]
              else map[]
  {
    var st := Train(c, data);
    PersistSaves(c, |st.testLosses|);
    RunInvariant(c, data, EpochCount(c));
  }

  /** Writing the saves of `n` evaluated epochs leaves one file holding epoch `n - 1`. */
  lemma {:induction false} PersistSaves(c: Config, n: nat)
    ensures Checkpoint.Persist(map[], SavesFor(c, n)) ==
              if c.saveModel && n > 0 then map[Checkpoint.PathFor(c.dataset) := n - 1] else map[]
  {
    if c.saveModel && n > 0 {
      PersistSaves(c, n - 1);
      var saves := SavesFor(c, n);
      assert saves[..|saves| - 1] == SavesFor(c, n - 1);
    }
  }
}
