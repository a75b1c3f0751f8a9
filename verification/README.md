# Epoch control of the VQ-VAE training loop, in Dafny

This project models the control logic of `train_vq_vae` in `train.py`. That
function trains a vector-quantised autoencoder. The model covers what decides
how the epoch loop behaves:

- **Early-stopping rule.** After each training phase the epoch's mean training
  loss is appended to the history. The loop then breaks when the history is
  longer than `early_stopping_epochs` (`d`) and `max(history[-d:-1])` is
  strictly below the current loss. The model uses Python's slice rules for any
  integer `d`:
  - for `d >= 2` the window holds the `d - 1` previous losses;
  - for `d == 1` the window is empty from the second epoch on, so `max` raises
    `ValueError`;
  - for `d <= 0` the window is `history[-d:-1]` read from the front.
- **Epoch state machine.** Each epoch trains and appends its loss, then runs the
  check. Unless the check stops or raises, it evaluates, appends the test loss,
  emits the monitoring images and, if `save_model` is set, saves the parameters.
  Empty data loaders lead to the exceptions the code would raise.
- **Monitoring schedule.** Sub-epoch reconstruction snapshots are taken only in
  epoch 0, with `save_reconstructions_first_epoch` set, at batch indices
  0, 20, 40, …. The `Original` image is emitted at most once, at step 0, and
  only when epoch 0 is evaluated.
  `Reconstruction` is emitted once per evaluated epoch.
- **Hyperparameter flattening.** The hparam map is every top-level non-dict
  setting, merged with `model_settings` by the dict union `|`, where the
  model settings win.
- **Checkpoint path.** Saves go to `models/saved_models/<dataset>/model.pt`.
  Each save overwrites the previous one.

Per-epoch mean losses are inputs: `real` numbers in `Training.Data`. The model
proves what the loop does with any sequence of them. Modules:

- `PySemantics`: exceptions, slices, `max`.
- `EarlyStopping`: the early-stopping check.
- `Snapshots`: when sub-epoch snapshots fire.
- `HParams`: the hyperparameter flattening.
- `Checkpoint`: the checkpoint path and what saves leave on disk.
- `Training`: one epoch and the whole loop.
- `TrainingRuns`: properties of whole runs.

## Notes on the code

- The window holds `d - 1` losses, not the `d` the option name suggests.
- The epoch on which early stopping fires is neither evaluated nor saved.
- Nothing checks that `early_stopping_epochs < max_epochs`.
- A non-finite loss gets no special handling.

## Model

| member | source | states |
|---|---|---|
| PySemantics.Slice | train.py:77 | a Python slice holds exactly the consecutive elements from the normalised start bound up to the normalised stop bound, and is empty when the start bound is not below the stop bound |
| PySemantics.Max | train.py:77 | the maximum of a non-empty list is one of its elements and no element exceeds it |
| PySemantics.PyMax | train.py:77 | `max` raises `ValueError` exactly on an empty list; otherwise it returns an element that no element exceeds |
| EarlyStopping.Window | train.py:77 | the compared slice `history[-d:-1]` is the consecutive losses from the normalised start bound up to index `n - 2`, exactly as many as lie between that bound and the last entry, so it never holds the current loss |
| EarlyStopping.Check | train.py:76-79 | never fires while `len(history) <= d`; when it raises, the error is `ValueError` and the window is empty; when it stops, every window loss is strictly below the current one |
| EarlyStopping.WindowIsPreviousEpochs | train.py:77 | for `d >= 2` and `n > d` losses, the window is exactly the entries at indices `n-d .. n-2`, which is `d - 1` losses |
| EarlyStopping.WindowForNonPositiveDelta | train.py:76-77 | for `d <= 0` the window is every earlier loss from index `-d` on |
| EarlyStopping.StopIffWorseThanWholeWindow | train.py:77 | for `d >= 2` the check never raises, and it stops iff every loss in the window is strictly less than the current loss (ties do not stop) |
| EarlyStopping.RaisesIffEmptyWindow | train.py:77 | `max` raises exactly when `d == 1` and at least two losses are recorded, or when `d <= 0` and `d < n <= 1 - d` |
| EarlyStopping.FirstFiringEpoch | train.py:77 | for `d >= 2` the rule cannot fire before epoch index `d`, and some history fires it at epoch `d` |
| EarlyStopping.WorkedExamples | train.py:77 | `[10, 8, 9]` with `d = 2` stops; `[10, 8, 7]` and the tie `[10, 8, 8]` do not |
| Snapshots.Fires | train.py:63 | the snapshot condition: the option is set, the batch index is divisible by 20, and the epoch is 0 |
| Snapshots.Batches | train.py:53-63 | the snapshot batches are increasing, every one is below the batch count and satisfies the line-63 condition, and every batch index that satisfies it is included |
| Snapshots.BatchesAreStrideMultiples | train.py:63 | in epoch 0 with the option on, the snapshot batches are exactly 0, 20, 40, … below the batch count, ceil(n / 20) of them |
| Snapshots.NoBatchesUnlessFirstEpoch | train.py:63 | in any other epoch, or with the option off, there are no snapshots |
| HParams.NonDictEntries | train.py:18 | the comprehension keeps exactly the top-level keys whose value is not a dict, with their values |
| HParams.DictUnion | train.py:18 | dict `|` has the keys of both operands, and takes the right operand's value on a clash |
| HParams.Flatten | train.py:18 | raises `KeyError` without `model_settings` and `TypeError` if it is not a dict; otherwise the keys are the non-dict top-level keys plus the model-settings keys, model-settings values win, and `"model_settings"` is present only if the inner dict has it |
| HParams.FlattenHasNoDicts | train.py:17-18 | if the model settings hold no nested dict, the flattened map holds no dict value |
| HParams.FlattenIgnoresOtherDicts | train.py:18 | dict-valued top-level entries other than `model_settings` do not affect the flattened map |
| Checkpoint.Directory | train.py:104 | the directory is the root `models/saved_models/`, then the dataset name, then `/` |
| Checkpoint.PathFor | train.py:104-106 | the checkpoint file path is the root, the dataset name, `/` and `model.pt`, by length |
| Checkpoint.PathRoundTrip | train.py:104-106 | the dataset name parses back out of its checkpoint path, and only that path parses to that name |
| Checkpoint.PathInjective | train.py:104-106 | different dataset names never give the same checkpoint path string |
| Checkpoint.Persist | train.py:106 | after a sequence of saves, the files on disk are the earlier files plus every path saved to; the last save's file holds its epoch, since a save overwrites; a file no save touched keeps its content |
| Training.SnapshotEvents | train.py:63-69 | one `Epoch1 reconstructions` image per snapshot batch, stepped by that batch index |
| Training.EpochCount | train.py:47 | the epoch indices run are exactly those of `range(max_epochs)`, so a non-positive bound runs none |
| Training.Epoch | train.py:48-106 | an epoch appends exactly one training loss, unless it crashes first, which only an empty training loader or the epoch-0 snapshot with an empty test loader does; it appends a test loss iff it ends running; a stopped epoch's history fires the rule; a stopped or crashed epoch saves nothing |
| Training.RunEpochs | train.py:47-79 | after `k` iterations of the loop, with a stop or an exception ending it, at most `k` training losses and no more test than training losses are recorded, and a still-running loop has recorded exactly `k` of each |
| Training.Train | train.py:46-106 | at most `max_epochs` epochs run; the train and test histories are prefixes of the per-epoch losses; exhausting the range gives equal lengths; an early stop leaves one fewer test loss and happens at an epoch index `>= d`; saves are one per evaluated epoch, to the dataset path; the image sequence is the snapshots, then `Original`, then one `Reconstruction` per evaluated epoch |
| Training.SavesFor | train.py:102-106 | with saving on there is one save per evaluated epoch, otherwise none |
| Training.SavesAreEveryEvaluatedEpoch | train.py:102-106 | the `i`-th save is of epoch `i` and goes to the dataset's checkpoint path |
| Training.Reconstructions | train.py:94-96 | one `Reconstruction` image per evaluated epoch, the `i`-th stepped by epoch `i` |
| Training.RunInvariant | train.py:46-106 | after any number of iterations the histories are append-only prefixes of the inputs; every evaluated epoch passed the check; saves and images match the closed forms; a crash comes from an empty loader or from `max` raising `ValueError` |
| Training.EpochPreservesInvariant | train.py:48-106 | one iteration from a running state preserves that invariant |
| TrainingRuns.HaltedIsFinal | train.py:77-79 | after the `break` or an exception, no further epoch changes the state |
| TrainingRuns.StopsAtFirstFiringEpoch | train.py:47-79 | for `d >= 2` with non-empty loaders the run never crashes; it stops iff some epoch below `max_epochs` fires the rule, and then it stops at the first such epoch |
| TrainingRuns.NonPositiveDeltaRaisesAtFirstEpoch | train.py:76-77 | with `d <= 0` the first epoch raises `ValueError` after training, with nothing evaluated or saved |
| TrainingRuns.DeltaOneRaisesAtSecondEpoch | train.py:76-77 | with `d == 1` the run raises `ValueError` in the second epoch, after one evaluated epoch |
| TrainingRuns.ImageSchedule | train.py:63-96 | snapshots occur only with the option on, at multiples of 20 below the batch count; `Original` occurs at most once, at step 0, and occurs iff epoch 0 was evaluated |
| TrainingRuns.LastSaveWins | train.py:102-106 | after a run, the disk holds exactly one checkpoint, of the last evaluated epoch, or none when saving is off or nothing was evaluated |
| TrainingRuns.PersistSaves | train.py:102-106 | writing the saves of `n` evaluated epochs leaves one file, holding epoch `n - 1` |

## Left out

- The VQ-VAE network is not part of this model (`models/vq_vae.py`, train.py:4, 39). This covers the codebook lookup, the straight-through estimator and the commitment loss.
- Forward and backward passes, the Adam optimizer, `zero_grad`, `model.train()`/`model.eval()`, `torch.no_grad` and device selection (train.py:22, 43, 52-60, 82-89) are foreign library calls. Their only effect on control flow is the losses, which are inputs.
- Floating-point arithmetic is not modelled: the MSE loss, division by `train_var`, the computed variance, and the averaging of batch losses (train.py:28-31, 56, 71, 88, 98). Losses are `real`, so NaN and rounding are not modelled. The one control-flow effect kept is the division by zero when a loader yields no batch.
- DataLoader shuffling, `drop_last` and workers (train.py:32-33) are library behaviour. The model keeps only the number of batches per pass, which is fixed for a run.
- TensorBoard logging, `add_hparams`, `add_scalar`, grid plotting, `print` and `summary` (train.py:16-19, 23-24, 40-41, 49, 68, 71, 73, 78, 92, 95, 98, 100) are I/O. `add_image` calls are kept as (tag, step) events, and the hparam map is kept without its insertion order.
- `os.makedirs` and `torch.save` (train.py:103-106) are I/O. They are modelled as a save record and a map from file path to the epoch whose parameters it holds.
- Dataset loading (`get_dataset`, train.py:27) is external.
- Reading typed options out of the settings dict, including a `KeyError` for a missing option other than `model_settings`, is not modelled. `Training.Config` is assumed well-formed.
- The later writes of `num_channels` and `input_shape` into `model_settings` (train.py:37-38) are left out. They happen after the hparam map is built, and `|` copies.
- The default settings under `__main__` (train.py:108-133) are left out.
- Training.Train: requires one supplied loss per epoch the range can run. This is input completeness for the abstracted model, not a demand of the code.
- Checkpoint.PathInjective: distinct names that the file system resolves to one directory, such as `MNIST` and `MNIST/`, give distinct path strings but the same file. Path resolution is file-system behaviour and is not modelled.
- Checkpoint.PathFor: its own contract states only the path's length; its content is stated by Checkpoint.PathRoundTrip.
