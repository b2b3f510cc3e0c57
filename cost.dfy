/** The cost model: per-kind tables of incremental costs and the cumulative cost of a row. */
module Cost {
  import opened Numeric

  const MaxLevel: int := 6

  datatype Kind = Stat | Perk

  const StatTable: seq<int> := [0, 0, 3, 6, 9, 12, 15]
  const PerkTable: seq<int> := [0, 1, 2, 4, 6, 8, 10]

  /** The table for a kind; every kind other than a stat uses the perk table. */
  function Table(k: Kind): (t: seq<int>)
    ensures |t| == MaxLevel + 1
    ensures t[0] == 0
    ensures forall l :: 0 <= l < |t| ==> 0 <= t[l]
  {
    if k == Stat then StatTable else PerkTable
  }

  /** Points needed to go from `level - 1` to `level`.  Levels past the table
      fall back on the table's last entry. */
  function CostToLevel(k: Kind, level: int): (c: int)
    ensures level <= 0 ==> c == 0
    ensures 1 <= level <= MaxLevel ==> c == Table(k)[level]
    ensures level > MaxLevel ==> c == (if k == Stat then 15 else 10)
    ensures 0 <= c <= 15
  {
    var table := Table(k);
    if level <= 0 then 0
    else if level < |table| then table[level]
    else table[|table| - 1]
  }

  /** Reference definition of the cumulative cost from `base` up to `current`:
      the costs of levels `base + 1` through `current`, or 0 when `current <= base`. */
  function SumCosts(k: Kind, base: int, current: int): (s: int)
    ensures current <= base ==> s == 0
    ensures s >= 0
    ensures current > base ==> s <= 15 * (current - base)
    decreases current - base
  {
    if current <= base then 0
    else SumCosts(k, base, current - 1) + CostToLevel(k, current)
  }

  /** `costBetween`: accumulates the incremental costs in a loop. */
  method CostBetween(k: Kind, base: int, current: int) returns (sum: int)
    ensures sum == SumCosts(k, base, current)
  {
    sum := 0;
    var lvl := base + 1;
    while lvl <= current
      invariant base + 1 <= lvl <= Max(current + 1, base + 1)
      invariant sum == SumCosts(k, base, lvl - 1)
      decreases current - lvl
    {
      sum := sum + CostToLevel(k, lvl);
      lvl := lvl + 1;
    }
  }

  /** The incremental cost never decreases as the level rises. */
  lemma CostToLevelMonotone(k: Kind, l: int, l': int)
    requires l <= l'
    ensures CostToLevel(k, l) <= CostToLevel(k, l')
  {
    if 1 <= l && l' <= MaxLevel {
      var t := Table(k);
      assert forall i, j :: 0 <= i <= j < |t| ==> t[i] <= t[j] by {
        assert t == StatTable || t == PerkTable;
      }
    }
  }

  /** Splitting a range of levels at any intermediate level splits its cost. */
  lemma {:induction false} SumCostsSplit(k: Kind, base: int, mid: int, current: int)
    requires base <= mid <= current
    ensures SumCosts(k, base, current) == SumCosts(k, base, mid) + SumCosts(k, mid, current)
    decreases current - mid
  {
    if current > mid {
      SumCostsSplit(k, base, mid, current - 1);
    }
  }

  /** The recurrence unfolded from the bottom: the first level's cost plus the rest. */
  lemma SumCostsFromBase(k: Kind, base: int, current: int)
    requires base < current
    ensures SumCosts(k, base, current) == CostToLevel(k, base + 1) + SumCosts(k, base + 1, current)
  {
    SumCostsSplit(k, base, base + 1, current);
  }

  /** Cumulative cost is monotone non-decreasing in the target level. */
  lemma {:induction false} SumCostsMonotone(k: Kind, base: int, current: int, current': int)
    requires current <= current'
    ensures SumCosts(k, base, current) <= SumCosts(k, base, current')
    decreases current' - current
  {
    if current < current' {
      SumCostsMonotone(k, base, current, current' - 1);
    }
  }

  /** Cumulative cost is non-increasing in the base level. */
  lemma SumCostsAntitoneInBase(k: Kind, base: int, base': int, current: int)
    requires base <= base'
    ensures SumCosts(k, base', current) <= SumCosts(k, base, current)
  {
    if base' < current {
      SumCostsSplit(k, base, base', current);
    }
  }

  /** The worked values: a stat from 1 to 4 costs 3 + 6 + 9, a perk from 0 to 3 costs
      1 + 2 + 4, and the full ranges cost 45 and 31. */
  lemma SumCostsExamples()
    ensures SumCosts(Stat, 1, 4) == 18
    ensures SumCosts(Perk, 0, 3) == 7
    ensures SumCosts(Stat, 1, MaxLevel) == 45
    ensures SumCosts(Perk, 0, MaxLevel) == 31
  {
  }
}
