/** The budget ledger: spending by kind, the available pool and what remains. */
module Ledger {
  import opened Wrappers
  import opened Numeric
  import opened Cost
  import opened Entries

  const MaxXP: int := 9999

  /** What one row contributes to the spending of kind `k`. */
  function Share(e: Entry, k: Kind): (c: int)
    ensures c >= 0
  {
    if e.kind == k then RowCost(e) else 0
  }

  /** Reference definition of the spending on kind `k`, accumulated in row order. */
  function Spent(rows: seq<Entry>, k: Kind): (s: int)
    ensures s >= 0
    decreases |rows|
  {
    if rows == [] then 0
    else Spent(rows[..|rows| - 1], k) + Share(rows[|rows| - 1], k)
  }

  /** The cost of all rows, whatever their kind. */
  function TotalCost(rows: seq<Entry>): (s: int)
    decreases |rows|
  {
    if rows == [] then 0
    else TotalCost(rows[..|rows| - 1]) + RowCost(rows[|rows| - 1])
  }

  /** `getXP`: the pool clamped to `[0, MaxXP]`, non-numbers giving 0. */
  function Available(xp: Option<int>): (a: int)
    ensures 0 <= a <= MaxXP
    ensures xp.None? ==> a == 0
    ensures xp.Some? && 0 <= xp.value <= MaxXP ==> a == xp.value
  {
    Clamp(xp, 0, MaxXP)
  }

  /** The figures `computeTotals` displays. */
  datatype Totals = Totals(available: int, statsSpent: int, perksSpent: int, remaining: int) {
    /** The remaining figure is shown as an alert when it is negative: for a ledger whose
        remaining figure is the pool minus the spending, exactly when more is spent than
        the pool holds. */
    predicate Alert(): (b: bool)
      ensures remaining == available - (statsSpent + perksSpent) ==>
        (b <==> statsSpent + perksSpent > available)
    {
      remaining < 0
    }
  }

  /** Reference definition of the ledger for a list of rows and a raw pool value. */
  function LedgerOf(rows: seq<Entry>, xp: Option<int>): (t: Totals)
    ensures t.remaining <= t.available
    ensures t.Alert() <==> t.statsSpent + t.perksSpent > t.available
  {
    var stats := Spent(rows, Stat);
    var perks := Spent(rows, Perk);
    var available := Available(xp);
    Totals(available, stats, perks, available - (stats + perks))
  }

  /** Every row as the recomputation leaves it: one row per row, each keeping its kind
      and its cost. */
  function NormalizeAll(rows: seq<Entry>): (r: seq<Entry>)
    ensures |r| == |rows|
    ensures forall i :: 0 <= i < |r| ==> r[i].kind == rows[i].kind && RowCost(r[i]) == RowCost(rows[i])
  {
    seq(|rows|, i requires 0 <= i < |rows| => Normalize(rows[i]))
  }

  predicate AllNormal(rows: seq<Entry>) {
    forall i :: 0 <= i < |rows| ==> Normal(rows[i])
  }

  /** After a recomputation every row is normal: the base in its kind's range and
      `base <= current <= MaxLevel`. */
  lemma NormalizeAllNormal(rows: seq<Entry>)
    ensures |NormalizeAll(rows)| == |rows| && AllNormal(NormalizeAll(rows))
    ensures forall i :: 0 <= i < |rows| ==> NormalizeAll(rows)[i].kind == rows[i].kind
  {
  }

  /** A recomputation changes nothing on rows that are already normal. */
  lemma NormalizeAllFixesNormal(rows: seq<Entry>)
    requires AllNormal(rows)
    ensures NormalizeAll(rows) == rows
  {
    forall i | 0 <= i < |rows| ensures NormalizeAll(rows)[i] == rows[i] {
      NormalizeFixesNormal(rows[i]);
    }
  }

  /** Spending grows by one row's share when the row is appended. */
  lemma SpentAppend(rows: seq<Entry>, e: Entry, k: Kind)
    ensures Spent(rows + [e], k) == Spent(rows, k) + Share(e, k)
  {
    assert (rows + [e])[..|rows|] == rows;
  }

  /** Extending a prefix of the rows by one row adds that row's share. */
  lemma SpentPrefixStep(rows: seq<Entry>, i: int, k: Kind)
    requires 0 <= i < |rows|
    ensures Spent(rows[..i + 1], k) == Spent(rows[..i], k) + Share(rows[i], k)
  {
    assert rows[..i + 1][..i] == rows[..i];
  }

  /** Spending after one row is replaced: the old row's share out, the new one's in. */
  lemma {:induction false} SpentUpdate(rows: seq<Entry>, i: int, e: Entry, k: Kind)
    requires 0 <= i < |rows|
    ensures Spent(rows[i := e], k) == Spent(rows, k) - Share(rows[i], k) + Share(e, k)
    decreases |rows|
  {
    var n := |rows| - 1;
    if i < n {
      assert rows[i := e][..n] == rows[..n][i := e];
      SpentUpdate(rows[..n], i, e, k);
    } else {
      assert rows[i := e][..n] == rows[..n];
    }
  }

  /** Removing one row removes exactly its share. */
  lemma {:induction false} SpentRemove(rows: seq<Entry>, j: int, k: Kind)
    requires 0 <= j < |rows|
    ensures Spent(rows[..j] + rows[j + 1..], k) == Spent(rows, k) - Share(rows[j], k)
    decreases |rows|
  {
    var n := |rows| - 1;
    if j < n {
      var rest := rows[..j] + rows[j + 1..];
      assert rest[..|rest| - 1] == rows[..n][..j] + rows[..n][j + 1..];
      assert rest[|rest| - 1] == rows[n];
      SpentRemove(rows[..n], j, k);
    } else {
      assert rows[..j] + rows[j + 1..] == rows[..n];
    }
  }

  /** A recomputation does not change the spending. */
  lemma {:induction false} SpentNormalizeAll(rows: seq<Entry>, k: Kind)
    ensures Spent(NormalizeAll(rows), k) == Spent(rows, k)
    decreases |rows|
  {
    if rows != [] {
      var n := |rows| - 1;
      assert NormalizeAll(rows)[..n] == NormalizeAll(rows[..n]);
      SpentNormalizeAll(rows[..n], k);
      RowCostNormalize(rows[n]);
    }
  }

  /** The two kinds partition the rows: stat and perk spending add up to the total cost. */
  lemma {:induction false} SpentPartition(rows: seq<Entry>)
    ensures Spent(rows, Stat) + Spent(rows, Perk) == TotalCost(rows)
    decreases |rows|
  {
    if rows != [] {
      SpentPartition(rows[..|rows| - 1]);
    }
  }

  /** The `updateButtons` predicate for the decrement control: on a normal row it holds
      exactly when the current level is back at the base, and always at level 0. */
  predicate DecDisabled(e: Entry): (b: bool)
    ensures Normal(e) ==> (b <==> e.current == e.base)
    ensures RowCurrent(e) == 0 ==> b
  {
    RowCurrent(e) <= RowBase(e)
  }

  /** The `updateButtons` predicate for the increment control, given the remaining points:
      always at the maximum level or with a negative remaining amount, and, once at least
      the largest table entry remains, only at the maximum level. */
  predicate IncDisabled(e: Entry, remaining: int): (b: bool)
    ensures RowCurrent(e) >= MaxLevel ==> b
    ensures remaining < 0 ==> b
    ensures remaining >= 15 ==> (b <==> RowCurrent(e) >= MaxLevel)
  {
    RowCurrent(e) >= MaxLevel || remaining < CostToLevel(e.kind, RowCurrent(e) + 1)
  }

  const LevelBaseXP: int := 30
  const XPPerLevel: int := 6
  const MinCharLevel: int := 1
  const MaxCharLevel: int := 99

  /** The pool a character level yields while the level and the pool are kept in step. */
  function LevelXP(level: int): (x: int)
    ensures MinCharLevel <= level <= MaxCharLevel ==> 36 <= x <= 624
    ensures MinCharLevel <= level <= MaxCharLevel ==> Available(Some(x)) == x
  {
    LevelBaseXP + level * XPPerLevel
  }

  /** The synchronised pool grows strictly with the level: level 1 gives 36, level 5
      gives 60 and level 99 gives 624. */
  lemma LevelXPIncreasing(level: int, level': int)
    requires MinCharLevel <= level < level' <= MaxCharLevel
    ensures LevelXP(level) < LevelXP(level')
    ensures LevelXP(1) == 36 && LevelXP(5) == 60 && LevelXP(MaxCharLevel) == 624
  {
  }
}
