/** The few pieces of Python's built-in behaviour that the training loop's
    control logic depends on: exceptions as values, slice-bound normalisation
    for `s[start:stop]`, and `max` over a list of numbers. */
module PySemantics {

  /** The Python exceptions the modelled code can raise. */
  datatype PyError =
    | ValueError         // `max()` of an empty sequence
    | ZeroDivisionError  // mean of an empty list of batch losses
    | UnboundLocalError  // reading `x_test` when the test loader yielded nothing
    | KeyError           // subscripting a dict with a missing key
    | TypeError          // `dict | x` where `x` is not a dict

  /** A computation that either returns a value or raises. */
  datatype Result<T> = Ok(value: T) | Raise(error: PyError)

  datatype Option<T> = None | Some(value: T)

  /** Python's normalisation of one bound of a step-1 slice against a
      sequence of length `n`: a negative bound counts from the end, and the
      result is clamped into `[0, n]`. */
  function SliceBound(i: int, n: nat): (b: nat)
    ensures b <= n
  {
    if i < 0 then (if i + n < 0 then 0 else i + n)
    else if i > n then n
    else i
  }

  /** `s[start:stop]` in Python: the elements between the two normalised
      bounds, or nothing when the lower bound is not below the upper one. */
  function Slice<T>(s: seq<T>, start: int, stop: int): (r: seq<T>)
    ensures |r| <= |s|
    ensures |r| == if SliceBound(start, |s|) < SliceBound(stop, |s|)
                   then SliceBound(stop, |s|) - SliceBound(start, |s|) else 0
    ensures forall k :: 0 <= k < |r| ==> r[k] == s[SliceBound(start, |s|) + k]
  {
    var lo := SliceBound(start, |s|);
    var hi := SliceBound(stop, |s|);
    if lo < hi then s[lo..hi] else []
  }

  /** The largest element of a non-empty sequence, found by the same
      left-to-right scan Python's `max` performs. */
  function Max(s: seq<real>): (m: real)
    requires |s| > 0
    ensures exists i :: 0 <= i < |s| && s[i] == m
    ensures forall i :: 0 <= i < |s| ==> s[i] <= m
  {
    if |s| == 1 then s[0]
    else
      var m := Max(s[..|s| - 1]);
      if s[|s| - 1] > m then s[|s| - 1] else m
  }

  /** Python's `max(s)`: raises `ValueError` on an empty sequence. */
  function PyMax(s: seq<real>): (r: Result<real>)
    ensures r.Raise? <==> |s| == 0
    ensures r.Raise? ==> r.error == ValueError
    ensures r.Ok? ==> (exists i :: 0 <= i < |s| && s[i] == r.value)
    ensures r.Ok? ==> forall i :: 0 <= i < |s| ==> s[i] <= r.value
  {
    if |s| == 0 then Raise(ValueError) else Ok(Max(s))
  }
}
