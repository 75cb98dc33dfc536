/** JavaScript's `Array.prototype.slice(start, end)` on integer arguments, as
    section 23.1.3.28 of ECMAScript 2023 defines it: a negative index counts
    back from the end of the array, every index is clamped into [0, length],
    and a window whose end lies before its start is empty.
 */
module JsArray {

  /** Resolves a relative index against `len`, as steps 4-6 do for `k` and
      steps 8-10 for `final`: negative values count from the end, then clamp
      to [0, len]. */
  function Resolve(k: int, len: nat): (r: nat)
    ensures r <= len
  {
    if k < 0 then (if len + k < 0 then 0 else len + k)
    else if k < len then k
    else len
  }

  /** `xs.slice(start, end)`; a call that omits `end` passes `|xs|`. */
  function Slice<T>(xs: seq<T>, start: int, end: int): (r: seq<T>)
    ensures |r| <= |xs|
    ensures 0 <= start <= end <= |xs| ==> r == xs[start..end]
    ensures 0 < -end <= |xs| && start == 0 ==> r == xs[..|xs| + end]
    ensures end <= start && (0 <= end || start < 0) ==> r == []
  {
    var from := Resolve(start, |xs|);
    var to := Resolve(end, |xs|);
    if to <= from then [] else xs[from..to]
  }
}
