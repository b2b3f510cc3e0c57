/** One allocation row: its kind, the raw value of its base-level field and the raw
    current-level attribute.  `None` is a field whose text is not a number. */
module Entries {
  import opened Wrappers
  import opened Numeric
  import opened Cost

  datatype Entry = Entry(kind: Kind, base: Option<int>, current: Option<int>)

  /** The lowest base a kind allows: 1 for stats, 0 for perks. */
  function MinBase(k: Kind): int {
    if k == Stat then 1 else 0
  }

  /** `getRowBase`: the base field clamped to the kind's range, non-numbers giving the minimum. */
  function RowBase(e: Entry): (b: int)
    ensures MinBase(e.kind) <= b <= MaxLevel
    ensures e.base.None? ==> b == MinBase(e.kind)
    ensures e.base.Some? && MinBase(e.kind) <= e.base.value <= MaxLevel ==> b == e.base.value
  {
    Clamp(e.base, MinBase(e.kind), MaxLevel)
  }

  /** `getRowCurrent`: the current attribute clamped to `[0, MaxLevel]`. */
  function RowCurrent(e: Entry): (c: int)
    ensures 0 <= c <= MaxLevel
    ensures e.current.None? ==> c == 0
    ensures e.current.Some? && 0 <= e.current.value <= MaxLevel ==> c == e.current.value
  {
    Clamp(e.current, 0, MaxLevel)
  }

  /** A row as a recomputation leaves it: both fields are numbers, the base lies in the
      kind's range and `base <= current <= MaxLevel`. */
  predicate Normal(e: Entry) {
    && e.base.Some? && e.current.Some?
    && MinBase(e.kind) <= e.base.value <= e.current.value <= MaxLevel
  }

  /** The row after `updateRowCost`: base written back clamped, current raised to the base. */
  function Normalize(e: Entry): (n: Entry)
    ensures Normal(n) && n.kind == e.kind
    ensures n.base == Some(RowBase(e))
    ensures RowBase(e) <= RowCurrent(e) ==> n.current == Some(RowCurrent(e))
    ensures RowCurrent(e) < RowBase(e) ==> n.current == Some(RowBase(e))
  {
    var b := RowBase(e);
    Entry(e.kind, Some(b), Some(Max(RowCurrent(e), b)))
  }

  /** Normalizing a row that is already normal leaves it as it is. */
  lemma NormalizeFixesNormal(e: Entry)
    requires Normal(e)
    ensures Normalize(e) == e
  {
  }

  /** The cost `updateRowCost` reports for a row. */
  function RowCost(e: Entry): (c: int)
    ensures c >= 0
    ensures RowCurrent(e) <= RowBase(e) ==> c == 0
  {
    var b := RowBase(e);
    SumCosts(e.kind, b, Max(RowCurrent(e), b))
  }

  /** Normalization does not change what a row costs. */
  lemma RowCostNormalize(e: Entry)
    ensures RowCost(Normalize(e)) == RowCost(e)
  {
  }
}
