/** The early-stopping rule of the training loop: after the current epoch's
    mean training loss has been appended to the history, training halts when
    the history is longer than `early_stopping_epochs` and the largest loss in
    the slice `history[-d:-1]` is strictly smaller than the current loss. */
module EarlyStopping {
  import opened PySemantics

  /** What the check at the end of a training phase decides. */
  datatype Verdict = Continue | Stop | Raised(error: PyError)

  /** The losses the current one is compared with: `history[-d:-1]` under
      Python's slice rules. It never contains the current (last) entry. */
  function Window(history: seq<real>, d: int): (w: seq<real>)
    ensures |w| == 0 || |w| < |history|
    ensures |history| >= 1 ==>
              |w| == if SliceBound(-d, |history|) < |history| - 1 then |history| - 1 - SliceBound(-d, |history|) else 0
    ensures |w| > 0 ==> SliceBound(-d, |history|) + |w| <= |history| - 1
    ensures forall k :: 0 <= k < |w| ==> w[k] == history[SliceBound(-d, |history|) + k]
  {
    Slice(history, -d, -1)
  }

  /** The early-stopping condition, evaluated with Python's short-circuit
      `and`: the window is only formed, and `max` only called, once the
      history is longer than `d`. */
  function Check(history: seq<real>, d: int): (v: Verdict)
    ensures |history| <= d ==> v == Continue
    ensures v.Raised? ==> v.error == ValueError && |history| > d && |Window(history, d)| == 0
    ensures v == Stop ==>
              && |history| > d
              && |Window(history, d)| > 0
              && forall k :: 0 <= k < |Window(history, d)| ==> Window(history, d)[k] < history[|history| - 1]
  {
    if |history| > d then
      match PyMax(Window(history, d))
      case Raise(e) => Raised(e)
      case Ok(m) => if m < history[|history| - 1] then Stop else Continue
    else Continue
  }

  /** With `d >= 2` and more than `d` epochs recorded, the window is exactly
      the `d - 1` losses at indices `n-d .. n-2`; the current epoch is not in it. */
  lemma WindowIsPreviousEpochs(history: seq<real>, d: int)
    requires d >= 2 && |history| > d
    ensures Window(history, d) == history[|history| - d .. |history| - 1]
    ensures |Window(history, d)| == d - 1
  {
    var n := |history|;
    assert SliceBound(-d, n) == n - d;
    assert SliceBound(-1, n) == n - 1;
  }

  /** With `d <= 0` the slice start is non-negative, so the window is every
      earlier loss from index `-d` on (for `d == 0`, the whole history but the
      current epoch). */
  lemma WindowForNonPositiveDelta(history: seq<real>, d: int)
    requires d <= 0 && |history| > 1 - d
    ensures Window(history, d) == history[-d .. |history| - 1]
  {
    var n := |history|;
    assert SliceBound(-d, n) == -d;
    assert SliceBound(-1, n) == n - 1;
  }

  /** For `d >= 2` the rule fires exactly when every loss of the window is
      strictly below the current loss; a tie does not fire it, and it never
      raises. */
  lemma StopIffWorseThanWholeWindow(history: seq<real>, d: int)
    requires d >= 2 && |history| > d
    ensures !Check(history, d).Raised?
    ensures Check(history, d) == Stop <==>
              forall i :: |history| - d <= i < |history| - 1 ==> history[i] < history[|history| - 1]
  {
    WindowIsPreviousEpochs(history, d);
    var n := |history|;
    var w := Window(history, d);
    if forall i :: n - d <= i < n - 1 ==> history[i] < history[n - 1] {
      var m := Max(w);
      var j :| 0 <= j < |w| && w[j] == m;
      assert w[j] == history[n - d + j];
    }
  }

  /** The check raises `ValueError` exactly when the slice it passes to `max`
      is empty: for `d == 1` from the second epoch on, and for `d <= 0`
      while the history is longer than `d` but holds at most `1 - d` losses. */
  lemma RaisesIffEmptyWindow(history: seq<real>, d: int)
    ensures Check(history, d).Raised? <==>
              ((d == 1 && |history| > 1) || (d <= 0 && d < |history| <= 1 - d))
  {
    var n := |history|;
    if d >= 2 && n > d {
      WindowIsPreviousEpochs(history, d);
    } else if d <= 0 && n > 1 - d {
      WindowForNonPositiveDelta(history, d);
    } else if d == 1 && n > 1 {
      assert SliceBound(-1, n) == n - 1;
    } else if d <= 0 {
      assert SliceBound(-1, n) <= SliceBound(-d, n);
    }
  }

  /** The earliest epoch index at which the rule can fire is `d`: it cannot
      fire sooner, and for `d >= 2` some history does fire it at epoch `d`. */
  lemma FirstFiringEpoch(d: int)
    requires d >= 2
    ensures forall h: seq<real> :: |h| <= d ==> Check(h, d) == Continue
    ensures Check(seq(d, _ => 0.0) + [1.0], d) == Stop
  {
    var h := seq(d, _ => 0.0) + [1.0];
    StopIffWorseThanWholeWindow(h, d);
    assert forall i :: |h| - d <= i < |h| - 1 ==> h[i] == 0.0;
  }

  /** Two histories with `d = 2`, plus a tie. */
  lemma WorkedExamples()
    ensures Check([10.0, 8.0, 9.0], 2) == Stop
    ensures Check([10.0, 8.0, 7.0], 2) == Continue
    ensures Check([10.0, 8.0, 8.0], 2) == Continue
  {
    StopIffWorseThanWholeWindow([10.0, 8.0, 9.0], 2);
    StopIffWorseThanWholeWindow([10.0, 8.0, 7.0], 2);
    StopIffWorseThanWholeWindow([10.0, 8.0, 8.0], 2);
  }
}
