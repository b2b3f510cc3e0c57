/** Integer helpers shared by the cost model and the store. */
module Numeric {
  import opened Wrappers

  function Max(a: int, b: int): (m: int)
    ensures m >= a && m >= b
    ensures m == a || m == b
  {
    if a >= b then a else b
  }

  function Min(a: int, b: int): (m: int)
    ensures m <= a && m <= b
    ensures m == a || m == b
  {
    if a <= b then a else b
  }

  /** `clamp(value, min, max)`: a value that is not a number gives `lo`;
      any other value is pulled into `[lo, hi]` as `Math.min(hi, Math.max(lo, v))` does. */
  function Clamp(v: Option<int>, lo: int, hi: int): (r: int)
    ensures v.None? ==> r == lo
    ensures v.Some? && lo <= hi ==> lo <= r <= hi
    ensures v.Some? && lo <= v.value <= hi ==> r == v.value
    ensures v.Some? && v.value < lo && lo <= hi ==> r == lo
    ensures v.Some? && v.value > hi ==> r == hi
    ensures v.Some? && hi < lo ==> r == hi
  {
    match v
    case None => lo
    case Some(x) => Min(hi, Max(lo, x))
  }
}
