/** Positional slicing of a dataset, with the semantics of Python's
    `rows[start:stop]` (which pandas `iloc` shares for integer bounds), and
    the handler's rule that a non-positive end means "to the end". */
module Slicing {
  import opened Wrappers

  /** Python's adjustment of a slice bound against a length `n`: a negative
      bound counts from the end, and the result is clamped into `[0, n]`. */
  function Bound(i: int, n: nat): (r: nat)
    ensures r <= n
    ensures 0 <= i <= n ==> r == i
    ensures i > n ==> r == n
    ensures i < 0 && i + n >= 0 ==> r == i + n
    ensures i + n < 0 ==> r == 0
  {
    if i < 0 then (if i + n < 0 then 0 else i + n)
    else if i > n then n
    else i
  }

  /** `rows[start:stop]`, where an absent `stop` means the end. */
  function PySlice<T>(rows: seq<T>, start: int, stop: Option<int>): (r: seq<T>)
    ensures var lo := Bound(start, |rows|);
            var hi := if stop.Some? then Bound(stop.value, |rows|) else |rows|;
            |r| == (if lo <= hi then hi - lo else 0)
            && forall i :: 0 <= i < |r| ==> r[i] == rows[lo + i]
  {
    var lo := Bound(start, |rows|);
    var hi := if stop.Some? then Bound(stop.value, |rows|) else |rows|;
    if lo <= hi then rows[lo..hi] else []
  }

  /** The window the handler returns: `rows[start:end]` when `end > 0`, and
      `rows[start:]` otherwise. */
  function Window<T>(rows: seq<T>, start: int, end: int): (r: seq<T>)
    ensures 0 <= start && end > 0 ==>
              |r| == Max(0, Min(end, |rows|) - start)
              && forall i :: 0 <= i < |r| ==> r[i] == rows[start + i]
    ensures 0 <= start && end <= 0 ==> r == rows[Min(start, |rows|)..]
    ensures end > 0 ==> r == PySlice(rows, start, Some(end))
    ensures end <= 0 ==> r == PySlice(rows, start, None) == rows[Bound(start, |rows|)..]
  {
    if end > 0 then PySlice(rows, start, Some(end)) else PySlice(rows, start, None)
  }

  function Min(a: int, b: int): int { if a <= b then a else b }

  function Max(a: int, b: int): int { if a <= b then b else a }

  /** With a non-negative start and a positive end the window is the
      contiguous run `rows[start..min(end, N)]`, and empty once `start`
      reaches that bound. */
  lemma WindowIsContiguous<T>(rows: seq<T>, start: int, end: int)
    requires 0 <= start && end > 0
    ensures start < Min(end, |rows|) ==> Window(rows, start, end) == rows[start..Min(end, |rows|)]
    ensures start >= Min(end, |rows|) ==> Window(rows, start, end) == []
  {
  }

  /** A negative start counts from the end: `rows[-k:]` is the last `k` rows
      (all of them when `k` exceeds the length). */
  lemma NegativeStartCountsFromEnd<T>(rows: seq<T>, k: nat, end: int)
    requires k > 0 && end <= 0
    ensures Window(rows, -(k as int), end) == rows[|rows| - Min(k, |rows|)..]
  {
  }
}
