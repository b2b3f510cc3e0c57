/** What each intent does to the list of rows, as functions of the rows before it.
    The store's handlers are proved to have exactly these effects. */
module Transitions {
  import opened Wrappers
  import opened Numeric
  import opened Cost
  import opened Entries
  import opened Ledger

  /** The action carried by a step button. */
  datatype Action = Dec | Inc

  /** The row `createDynamicRow` builds: a normal perk row with base 0 and current 0,
      which costs nothing. */
  function NewPerk(): (e: Entry)
    ensures e.kind == Perk && Normal(e)
    ensures RowBase(e) == 0 && RowCurrent(e) == 0 && RowCost(e) == 0
  {
    Entry(Perk, Some(0), Some(0))
  }

  /** Rows in document order: the first `statCount` are stat rows, the rest perk rows. */
  predicate Layout(rows: seq<Entry>, statCount: nat) {
    && statCount <= |rows|
    && forall i :: 0 <= i < |rows| ==> rows[i].kind == (if i < statCount then Stat else Perk)
  }

  /** Replacing a row by one of the same kind keeps the layout. */
  lemma LayoutUpdate(rows: seq<Entry>, statCount: nat, i: int, e: Entry)
    requires Layout(rows, statCount) && 0 <= i < |rows| && e.kind == rows[i].kind
    ensures Layout(rows[i := e], statCount)
  {
  }

  /** Decrement of row `i`: allowed only while its current level is above its base. Only
      row `i` may change, its kind and base are kept, and it changes exactly when the
      decrement is allowed, by one level down. */
  function DecRows(rows: seq<Entry>, i: int): (r: seq<Entry>)
    ensures |r| == |rows|
    ensures forall j :: 0 <= j < |rows| && j != i ==> r[j] == rows[j]
    ensures 0 <= i < |rows| ==> r[i].kind == rows[i].kind && RowBase(r[i]) == RowBase(rows[i])
    ensures r != rows <==> 0 <= i < |rows| && RowCurrent(rows[i]) > RowBase(rows[i])
    ensures r != rows ==> RowCurrent(r[i]) == RowCurrent(rows[i]) - 1
  {
    if 0 <= i < |rows| && RowCurrent(rows[i]) > RowBase(rows[i]) then
      rows[i := Entry(rows[i].kind, Some(RowBase(rows[i])), Some(RowCurrent(rows[i]) - 1))]
    else rows
  }

  /** Increment of row `i`: allowed only below the maximum level and when the freshly
      computed remaining points cover the next level's cost. Only row `i` may change, its
      kind and base are kept, and it changes exactly when the increment is allowed, by one
      level up. */
  function IncRows(rows: seq<Entry>, xp: Option<int>, i: int): (r: seq<Entry>)
    ensures |r| == |rows|
    ensures forall j :: 0 <= j < |rows| && j != i ==> r[j] == rows[j]
    ensures 0 <= i < |rows| ==> r[i].kind == rows[i].kind && RowBase(r[i]) == RowBase(rows[i])
    ensures r != rows <==>
      && 0 <= i < |rows| && RowCurrent(rows[i]) < MaxLevel
      && LedgerOf(rows, xp).remaining >= CostToLevel(rows[i].kind, RowCurrent(rows[i]) + 1)
    ensures r != rows ==> RowCurrent(r[i]) == RowCurrent(rows[i]) + 1
  {
    if && 0 <= i < |rows|
       && RowCurrent(rows[i]) < MaxLevel
       && LedgerOf(rows, xp).remaining >= CostToLevel(rows[i].kind, RowCurrent(rows[i]) + 1)
    then
      rows[i := Entry(rows[i].kind, Some(RowBase(rows[i])), Some(RowCurrent(rows[i]) + 1))]
    else rows
  }

  /** A step click with the given action: at most row `i` changes, and then by one level
      in the action's direction. */
  function StepRows(rows: seq<Entry>, xp: Option<int>, i: int, action: Action): (r: seq<Entry>)
    ensures |r| == |rows|
    ensures forall j :: 0 <= j < |rows| && j != i ==> r[j] == rows[j]
    ensures r != rows ==>
      && 0 <= i < |rows|
      && RowCurrent(r[i]) == RowCurrent(rows[i]) + (if action == Inc then 1 else -1)
  {
    match action
    case Dec => DecRows(rows, i)
    case Inc => IncRows(rows, xp, i)
  }

  /** A new raw value typed into row `i`'s base field, then `handleBaseChange`: row `i`
      becomes normal with the clamped value as its base and its current level raised to
      that base if it was below; no other row changes. */
  function SetBaseRows(rows: seq<Entry>, i: int, raw: Option<int>): (r: seq<Entry>)
    ensures |r| == |rows|
    ensures forall j :: 0 <= j < |rows| && j != i ==> r[j] == rows[j]
    ensures 0 <= i < |rows| ==>
      && Normal(r[i]) && r[i].kind == rows[i].kind
      && RowBase(r[i]) == Clamp(raw, MinBase(rows[i].kind), MaxLevel)
      && RowCurrent(r[i]) == Max(RowCurrent(rows[i]), RowBase(r[i]))
  {
    if 0 <= i < |rows| then rows[i := Normalize(rows[i].(base := raw))] else rows
  }

  /** The remove button of perk number `p` (counted from the first perk row): one row fewer
      when that perk exists and no change otherwise; the stat rows are never touched. */
  function RemovePerkRows(rows: seq<Entry>, statCount: nat, p: int): (r: seq<Entry>)
    ensures 0 <= p && statCount + p < |rows| ==> |r| == |rows| - 1
    ensures !(0 <= p && statCount + p < |rows|) ==> r == rows
    ensures statCount <= |rows| ==> |r| >= statCount && r[..statCount] == rows[..statCount]
  {
    if 0 <= p && statCount + p < |rows| then rows[..statCount + p] + rows[statCount + p + 1..]
    else rows
  }

  /** `resetAllocated`: every row keeps its kind and base, and its current level is set
      back to that base. */
  function ResetRows(rows: seq<Entry>): (r: seq<Entry>)
    ensures |r| == |rows|
    ensures forall i :: 0 <= i < |r| ==>
      && r[i].kind == rows[i].kind && RowBase(r[i]) == RowBase(rows[i])
      && RowCurrent(r[i]) == RowBase(rows[i])
  {
    seq(|rows|, i requires 0 <= i < |rows| =>
      Entry(rows[i].kind, Some(RowBase(rows[i])), Some(RowBase(rows[i]))))
  }

  /** The rows after `resetAll`: every row keeps its kind and has nothing allocated above
      its base; the base is 1 in the stat positions and 0 in the perk positions. */
  function ResetAllRows(rows: seq<Entry>, statCount: nat): (r: seq<Entry>)
    ensures |r| == |rows|
    ensures forall i :: 0 <= i < |r| ==>
      && r[i].kind == rows[i].kind && RowCurrent(r[i]) <= RowBase(r[i])
      && r[i].base == Some(if i < statCount then 1 else 0)
  {
    seq(|rows|, i requires 0 <= i < |rows| =>
      if i < statCount then rows[i].(base := Some(1), current := Some(1))
      else rows[i].(base := Some(0), current := Some(0)))
  }

  /** On normal rows the controls `updateButtons` disables are exactly the steps
      `handleStepClick` refuses: a control is disabled iff its step leaves the rows unchanged. */
  lemma AffordanceMatchesSteps(rows: seq<Entry>, xp: Option<int>, i: int)
    requires AllNormal(rows) && 0 <= i < |rows|
    ensures DecDisabled(rows[i]) <==> DecRows(rows, i) == rows
    ensures IncDisabled(rows[i], LedgerOf(rows, xp).remaining) <==> IncRows(rows, xp, i) == rows
  {
    if !DecDisabled(rows[i]) {
      assert DecRows(rows, i)[i] != rows[i];
    }
    if !IncDisabled(rows[i], LedgerOf(rows, xp).remaining) {
      assert IncRows(rows, xp, i)[i] != rows[i];
    }
  }

  /** An allowed decrement lowers that row's current level by exactly one, keeps every row
      normal and refunds exactly the cost of the level it gives up. */
  lemma DecrementStep(rows: seq<Entry>, xp: Option<int>, i: int)
    requires AllNormal(rows) && 0 <= i < |rows|
    requires !DecDisabled(rows[i])
    ensures |DecRows(rows, i)| == |rows|
    ensures DecRows(rows, i)[i] == rows[i].(current := Some(rows[i].current.value - 1))
    ensures AllNormal(DecRows(rows, i))
    ensures LedgerOf(DecRows(rows, i), xp).remaining
         == LedgerOf(rows, xp).remaining + CostToLevel(rows[i].kind, rows[i].current.value)
  {
    var e := rows[i];
    var c := e.current.value;
    assert RowBase(e) == e.base.value && RowCurrent(e) == c;
    assert DecRows(rows, i) == rows[i := e.(current := Some(c - 1))];
    ChangeCurrent(rows, xp, i, c - 1);
    assert RowCost(e) == SumCosts(e.kind, e.base.value, c - 1) + CostToLevel(e.kind, c);
  }

  /** Setting one normal row's current level to another level in `[base, MaxLevel]` keeps
      the rows normal and moves the remaining points by the difference in that row's cost. */
  lemma ChangeCurrent(rows: seq<Entry>, xp: Option<int>, i: int, c': int)
    requires AllNormal(rows) && 0 <= i < |rows|
    requires rows[i].base.value <= c' <= MaxLevel
    ensures AllNormal(rows[i := rows[i].(current := Some(c'))])
    ensures LedgerOf(rows[i := rows[i].(current := Some(c'))], xp).remaining
      == LedgerOf(rows, xp).remaining + RowCost(rows[i])
         - SumCosts(rows[i].kind, rows[i].base.value, c')
  {
    var e := rows[i];
    var e' := e.(current := Some(c'));
    var after := rows[i := e'];
    assert AllNormal(after) by {
      forall j | 0 <= j < |after| ensures Normal(after[j]) {
        if j != i {
          assert after[j] == rows[j];
        }
      }
    }
    assert RowCost(e') == SumCosts(e.kind, e.base.value, c');
    SpentUpdate(rows, i, e', Stat);
    SpentUpdate(rows, i, e', Perk);
  }

  /** An approved increment raises that row's current level by exactly one, keeps every row
      normal, charges exactly the next level's cost and never leaves the remaining points
      negative. */
  lemma IncrementStep(rows: seq<Entry>, xp: Option<int>, i: int)
    requires AllNormal(rows) && 0 <= i < |rows|
    requires !IncDisabled(rows[i], LedgerOf(rows, xp).remaining)
    ensures |IncRows(rows, xp, i)| == |rows|
    ensures IncRows(rows, xp, i)[i] == rows[i].(current := Some(rows[i].current.value + 1))
    ensures AllNormal(IncRows(rows, xp, i))
    ensures LedgerOf(IncRows(rows, xp, i), xp).remaining
         == LedgerOf(rows, xp).remaining - CostToLevel(rows[i].kind, rows[i].current.value + 1)
    ensures LedgerOf(IncRows(rows, xp, i), xp).remaining >= 0
  {
    var e := rows[i];
    var c := e.current.value;
    assert RowCurrent(e) == c && c < MaxLevel;
    assert LedgerOf(rows, xp).remaining >= CostToLevel(e.kind, c + 1);
    assert RowBase(e) == e.base.value;
    var e' := e.(current := Some(c + 1));
    assert e' == Entry(e.kind, Some(RowBase(e)), Some(c + 1));
    assert IncRows(rows, xp, i) == rows[i := e'];
    assert rows[i := e'][i] == e';
    ChangeCurrent(rows, xp, i, c + 1);
    assert RowCost(e) == SumCosts(e.kind, e.base.value, c);
  }

  /** A refused increment changes nothing. */
  lemma IncrementRefused(rows: seq<Entry>, xp: Option<int>, i: int)
    requires 0 <= i < |rows|
    requires IncDisabled(rows[i], LedgerOf(rows, xp).remaining)
    ensures IncRows(rows, xp, i) == rows
  {
  }

  /** Decrement followed by increment on the same row restores the rows, and with them the
      remaining points, provided the remaining points were not negative beforehand. */
  lemma DecIncRoundTrip(rows: seq<Entry>, xp: Option<int>, i: int)
    requires AllNormal(rows) && 0 <= i < |rows|
    requires !DecDisabled(rows[i])
    requires LedgerOf(rows, xp).remaining >= 0
    ensures IncRows(DecRows(rows, i), xp, i) == rows
    ensures LedgerOf(IncRows(DecRows(rows, i), xp, i), xp) == LedgerOf(rows, xp)
  {
    DecrementStep(rows, xp, i);
    var mid := DecRows(rows, i);
    assert !IncDisabled(mid[i], LedgerOf(mid, xp).remaining);
    assert IncRows(mid, xp, i) == mid[i := rows[i]];
    assert mid[i := rows[i]] == rows;
  }

  /** A base change sets the base to the clamped raw value, raises the current level to it
      when it was below and otherwise leaves the current level as it was; other rows keep
      their values and the rows stay normal. */
  lemma SetBaseStep(rows: seq<Entry>, i: int, raw: Option<int>)
    requires AllNormal(rows) && 0 <= i < |rows|
    ensures var after := SetBaseRows(rows, i, raw);
      var b := Clamp(raw, MinBase(rows[i].kind), MaxLevel);
      && |after| == |rows| && AllNormal(after)
      && after[i].kind == rows[i].kind
      && after[i].base == Some(b)
      && after[i].current == Some(Max(rows[i].current.value, b))
      && (forall j :: 0 <= j < |rows| && j != i ==> after[j] == rows[j])
  {
  }

  /** Adding a perk row keeps every row normal and the layout, and costs nothing. */
  lemma AddPerkStep(rows: seq<Entry>, statCount: nat, xp: Option<int>)
    requires AllNormal(rows) && Layout(rows, statCount)
    ensures AllNormal(rows + [NewPerk()]) && Layout(rows + [NewPerk()], statCount)
    ensures LedgerOf(rows + [NewPerk()], xp) == LedgerOf(rows, xp)
  {
    SpentAppend(rows, NewPerk(), Stat);
    SpentAppend(rows, NewPerk(), Perk);
  }

  /** Removing a perk row removes exactly that row and exactly its cost from the perk
      spending; the stat spending and the layout are untouched. */
  lemma RemovePerkStep(rows: seq<Entry>, statCount: nat, p: int)
    requires AllNormal(rows) && Layout(rows, statCount)
    requires 0 <= p && statCount + p < |rows|
    ensures RemovePerkRows(rows, statCount, p) == rows[..statCount + p] + rows[statCount + p + 1..]
    ensures |RemovePerkRows(rows, statCount, p)| == |rows| - 1
    ensures AllNormal(RemovePerkRows(rows, statCount, p))
    ensures Layout(RemovePerkRows(rows, statCount, p), statCount)
    ensures Spent(RemovePerkRows(rows, statCount, p), Perk)
      == Spent(rows, Perk) - RowCost(rows[statCount + p])
    ensures Spent(RemovePerkRows(rows, statCount, p), Stat) == Spent(rows, Stat)
  {
    var j := statCount + p;
    RemoveKeepsShape(rows, statCount, j);
    SpentRemove(rows, j, Stat);
    SpentRemove(rows, j, Perk);
  }

  /** Removing a row at or after the stat rows keeps the rows normal and the layout. */
  lemma RemoveKeepsShape(rows: seq<Entry>, statCount: nat, j: int)
    requires AllNormal(rows) && Layout(rows, statCount)
    requires statCount <= j < |rows|
    ensures AllNormal(rows[..j] + rows[j + 1..])
    ensures Layout(rows[..j] + rows[j + 1..], statCount)
  {
    var after := rows[..j] + rows[j + 1..];
    RemoveAtIndex(rows, j);
    forall k | 0 <= k < |after|
      ensures Normal(after[k]) && after[k].kind == (if k < statCount then Stat else Perk)
    {
      if k < j {
        assert after[k] == rows[k];
      } else {
        assert after[k] == rows[k + 1];
      }
    }
  }

  /** Indexing into a list with one element removed. */
  lemma RemoveAtIndex(rows: seq<Entry>, j: int)
    requires 0 <= j < |rows|
    ensures var after := rows[..j] + rows[j + 1..];
      && |after| == |rows| - 1
      && forall k :: 0 <= k < |after| ==> after[k] == if k < j then rows[k] else rows[k + 1]
  {
  }

  /** `resetAllocated` refunds everything: no kind has any spending afterwards. */
  lemma {:induction false} ResetRowsSpendNothing(rows: seq<Entry>, k: Kind)
    ensures Spent(ResetRows(rows), k) == 0
    decreases |rows|
  {
    if rows != [] {
      var n := |rows| - 1;
      assert ResetRows(rows)[..n] == ResetRows(rows[..n]);
      ResetRowsSpendNothing(rows[..n], k);
    }
  }

  /** `resetAllocated` keeps the number of rows, their kinds and their bases, leaves them
      normal, makes the total spending 0 and is idempotent. */
  lemma ResetRowsStep(rows: seq<Entry>, xp: Option<int>)
    requires AllNormal(rows)
    ensures var after := ResetRows(rows);
      && |after| == |rows| && AllNormal(after)
      && (forall i :: 0 <= i < |rows| ==>
            after[i].kind == rows[i].kind && after[i].base == rows[i].base
            && after[i].current == rows[i].base)
      && LedgerOf(after, xp).statsSpent + LedgerOf(after, xp).perksSpent == 0
      && LedgerOf(after, xp).remaining == Available(xp)
      && ResetRows(after) == after
  {
    ResetRowsSpendNothing(rows, Stat);
    ResetRowsSpendNothing(rows, Perk);
  }

  /** `resetAll` spends nothing: every row ends at its kind's minimum level. */
  lemma {:induction false} ResetAllRowsSpendNothing(rows: seq<Entry>, statCount: nat, k: Kind)
    requires Layout(rows, statCount)
    ensures Spent(ResetAllRows(rows, statCount), k) == 0
    decreases |rows|
  {
    if |rows| > statCount {
      var n := |rows| - 1;
      assert ResetAllRows(rows, statCount)[..n] == ResetAllRows(rows[..n], statCount);
      ResetAllRowsSpendNothing(rows[..n], statCount, k);
    } else if rows != [] {
      var n := |rows| - 1;
      assert ResetAllRows(rows, statCount)[..n] == ResetAllRows(rows[..n], n);
      ResetAllRowsSpendNothing(rows[..n], n, k);
    }
  }

  /** `resetAll` keeps the number of rows and the layout, sets stat rows to base = current = 1
      and perk rows to base = current = 0, and leaves nothing spent. */
  lemma ResetAllRowsStep(rows: seq<Entry>, statCount: nat, xp: Option<int>)
    requires Layout(rows, statCount)
    ensures |ResetAllRows(rows, statCount)| == |rows|
    ensures AllNormal(ResetAllRows(rows, statCount))
    ensures Layout(ResetAllRows(rows, statCount), statCount)
    ensures forall i :: 0 <= i < statCount ==> ResetAllRows(rows, statCount)[i] == Entry(Stat, Some(1), Some(1))
    ensures forall i :: statCount <= i < |rows| ==> ResetAllRows(rows, statCount)[i] == NewPerk()
    ensures LedgerOf(ResetAllRows(rows, statCount), xp).remaining == Available(xp)
  {
    var after := ResetAllRows(rows, statCount);
    forall i | 0 <= i < |rows|
      ensures after[i] == if i < statCount then Entry(Stat, Some(1), Some(1)) else NewPerk()
    {
      assert rows[i].kind == if i < statCount then Stat else Perk;
    }
    ResetAllRowsSpendNothing(rows, statCount, Stat);
    ResetAllRowsSpendNothing(rows, statCount, Perk);
  }

  /** A pool of 5 and one new perk row: the first increment costs 1 (4 left), the second
      costs 2 (2 left), and the third, costing 4, is refused. */
  lemma PerkScenario()
    ensures var r1 := IncRows([NewPerk()], Some(5), 0);
      var r2 := IncRows(r1, Some(5), 0);
      && LedgerOf(r1, Some(5)).remaining == 4
      && LedgerOf(r2, Some(5)).remaining == 2
      && r2 == [Entry(Perk, Some(0), Some(2))]
      && IncRows(r2, Some(5), 0) == r2
  {
    var xp := Some(5);
    var r0 := [NewPerk()];
    SpentSingle(NewPerk(), Stat);
    SpentSingle(NewPerk(), Perk);
    assert LedgerOf(r0, xp).remaining == 5;
    IncrementStep(r0, xp, 0);
    var r1 := IncRows(r0, xp, 0);
    assert r1 == [Entry(Perk, Some(0), Some(1))];
    IncrementStep(r1, xp, 0);
    var r2 := IncRows(r1, xp, 0);
    assert r2 == [Entry(Perk, Some(0), Some(2))];
    assert IncDisabled(r2[0], LedgerOf(r2, xp).remaining);
  }

  /** One stat row at base 1 with the given current level. */
  function StatAt(current: int): seq<Entry> {
    [Entry(Stat, Some(1), Some(current))]
  }

  /** With a single stat row at base 1, remaining is the pool minus the cost from 1 up. */
  lemma StatAtLedger(current: int, xp: Option<int>)
    requires 1 <= current <= MaxLevel
    ensures LedgerOf(StatAt(current), xp).remaining == Available(xp) - SumCosts(Stat, 1, current)
  {
    SpentSingle(StatAt(current)[0], Stat);
    SpentSingle(StatAt(current)[0], Perk);
  }

  /** With a single stat row at base 1, an increment that the remaining points cover
      moves it up one level. */
  lemma StatAtStep(current: int, xp: Option<int>)
    requires 1 <= current < MaxLevel
    requires Available(xp) - SumCosts(Stat, 1, current) >= CostToLevel(Stat, current + 1)
    ensures IncRows(StatAt(current), xp, 0) == StatAt(current + 1)
  {
    StatAtLedger(current, xp);
  }

  /** A pool of 60 (level 5) and one stat row at base 1: three increments reach level 4
      at a cost of 3 + 6 + 9 = 18, leaving 42; a fourth, costing 12, is approved and
      leaves 30. */
  lemma StatScenario()
    ensures var xp := Some(LevelXP(5));
      && LedgerOf(StatAt(1), xp).remaining == 60
      && IncRows(StatAt(1), xp, 0) == StatAt(2)
      && IncRows(StatAt(2), xp, 0) == StatAt(3)
      && IncRows(StatAt(3), xp, 0) == StatAt(4)
      && LedgerOf(StatAt(4), xp).remaining == 42
      && IncRows(StatAt(4), xp, 0) == StatAt(5)
      && LedgerOf(StatAt(5), xp).remaining == 30
  {
    var xp := Some(LevelXP(5));
    assert Available(xp) == 60;
    StatAtLedger(1, xp);
    StatAtLedger(4, xp);
    StatAtLedger(5, xp);
    StatAtStep(1, xp);
    StatAtStep(2, xp);
    StatAtStep(3, xp);
    StatAtStep(4, xp);
  }

  /** The spending of a single row is its share. */
  lemma SpentSingle(e: Entry, k: Kind)
    ensures Spent([e], k) == Share(e, k)
  {
    assert [e][..0] == [];
  }
}
