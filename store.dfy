/** The allocation store: the rows in document order, the level and pool fields and the
    synchronisation switch, with one method per handler of the calculator. */
module Store {
  import opened Wrappers
  import opened Numeric
  import opened Cost
  import opened Entries
  import opened Ledger
  import opened Transitions

  /** Whether a row's decrement and increment controls are disabled. */
  datatype Buttons = Buttons(decDisabled: bool, incDisabled: bool)

  /** What `updateAll` displays: the totals and the state of every row's controls. */
  datatype View = View(totals: Totals, buttons: seq<Buttons>)

  /** Every row with its base field rewritten to the clamped value `getRowBase` reads. */
  function BasesWritten(rows: seq<Entry>): seq<Entry> {
    seq(|rows|, i requires 0 <= i < |rows| => rows[i].(base := Some(RowBase(rows[i]))))
  }

  /** Writing the bases back changes nothing on normal rows. */
  lemma BasesWrittenFixesNormal(rows: seq<Entry>)
    requires AllNormal(rows)
    ensures BasesWritten(rows) == rows
  {
    forall i | 0 <= i < |rows| ensures BasesWritten(rows)[i] == rows[i] {
      NormalizeFixesNormal(rows[i]);
    }
  }

  class Calculator {
    /** Stat rows first (their number fixed), then perk rows in insertion order. */
    var rows: seq<Entry>
    const statCount: nat
    /** The raw values of the level and pool fields, and whether the pool follows the level. */
    var levelText: Option<int>
    var xpText: Option<int>
    var sync: bool

    ghost predicate Valid()
      reads this
    {
      && Layout(rows, statCount)
      && AllNormal(rows)
      && levelText.Some? && MinCharLevel <= levelText.value <= MaxCharLevel
    }

    /** The page as loaded: the stat rows the document holds and the initial field values.
        Initialisation synchronises the pool, adds one perk row and recomputes. */
    constructor (statRows: seq<Entry>, level: Option<int>, xp: Option<int>, xpSync: bool)
      requires forall i :: 0 <= i < |statRows| ==> statRows[i].kind == Stat
      ensures Valid()
      ensures statCount == |statRows|
      ensures rows == NormalizeAll(statRows) + [NewPerk()]
      ensures levelText == Some(Clamp(level, MinCharLevel, MaxCharLevel)) && sync == xpSync
      ensures xpText == if xpSync then Some(LevelXP(levelText.value)) else xp
    {
      rows, statCount := statRows, |statRows|;
      levelText, xpText, sync := level, xp, xpSync;
      new;
      SyncXPFromLevel();
      rows := rows + [NewPerk()];
      var view := UpdateAll();
      assert NormalizeAll(statRows + [NewPerk()]) == NormalizeAll(statRows) + [NewPerk()];
      NormalizeAllNormal(statRows + [NewPerk()]);
      view := UpdateAll();
      NormalizeAllFixesNormal(NormalizeAll(statRows) + [NewPerk()]);
    }

    /** `syncXPFromLevel`: clamps the level field to `[1, 99]` and, with synchronisation on,
        sets the pool field to the level's pool. */
    method SyncXPFromLevel()
      modifies this
      ensures levelText == Some(Clamp(old(levelText), MinCharLevel, MaxCharLevel))
      ensures xpText == if sync then Some(LevelXP(levelText.value)) else old(xpText)
      ensures rows == old(rows) && sync == old(sync)
    {
      var level := Clamp(levelText, MinCharLevel, MaxCharLevel);
      levelText := Some(level);
      if sync {
        xpText := Some(LevelXP(level));
      }
    }

    /** `getRowBase`: reads row `i`'s base clamped to its kind's range and writes it back. */
    method GetRowBase(i: int) returns (b: int)
      requires 0 <= i < |rows|
      modifies this
      ensures b == RowBase(old(rows[i]))
      ensures rows == old(rows)[i := old(rows[i]).(base := Some(b))]
      ensures levelText == old(levelText) && xpText == old(xpText) && sync == old(sync)
    {
      b := RowBase(rows[i]);
      rows := rows[i := rows[i].(base := Some(b))];
    }

    /** `setRowCurrent`: stores `value` clamped to `[0, MaxLevel]` as row `i`'s current level. */
    method SetRowCurrent(i: int, value: int)
      requires 0 <= i < |rows|
      modifies this
      ensures rows == old(rows)[i := old(rows[i]).(current := Some(Clamp(Some(value), 0, MaxLevel)))]
      ensures levelText == old(levelText) && xpText == old(xpText) && sync == old(sync)
    {
      rows := rows[i := rows[i].(current := Some(Clamp(Some(value), 0, MaxLevel)))];
    }

    /** `updateRowCost`: normalises row `i` and returns its cost. */
    method UpdateRowCost(i: int) returns (cost: int)
      requires 0 <= i < |rows|
      modifies this
      ensures rows == old(rows)[i := Normalize(old(rows[i]))]
      ensures cost == RowCost(old(rows[i]))
      ensures levelText == old(levelText) && xpText == old(xpText) && sync == old(sync)
    {
      var base := GetRowBase(i);
      var current := Max(RowCurrent(rows[i]), base);
      SetRowCurrent(i, current);
      cost := CostBetween(rows[i].kind, base, current);
    }

    /** `computeTotals`: normalises every row and sums the costs by kind. */
    method ComputeTotals() returns (t: Totals)
      modifies this
      ensures rows == NormalizeAll(old(rows))
      ensures t == LedgerOf(old(rows), xpText)
      ensures levelText == old(levelText) && xpText == old(xpText) && sync == old(sync)
    {
      ghost var rows0 := rows;
      var statsSpent, perksSpent := 0, 0;
      var i := 0;
      while i < |rows|
        invariant 0 <= i <= |rows| == |rows0|
        invariant forall j :: 0 <= j < i ==> rows[j] == Normalize(rows0[j])
        invariant forall j :: i <= j < |rows| ==> rows[j] == rows0[j]
        invariant statsSpent == Spent(rows0[..i], Stat)
        invariant perksSpent == Spent(rows0[..i], Perk)
        invariant levelText == old(levelText) && xpText == old(xpText) && sync == old(sync)
      {
        var kind := rows[i].kind;
        var cost := UpdateRowCost(i);
        assert kind == rows0[i].kind && cost == RowCost(rows0[i]);
        SpentPrefixStep(rows0, i, Stat);
        SpentPrefixStep(rows0, i, Perk);
        if kind == Stat {
          statsSpent := statsSpent + cost;
        }
        if kind == Perk {
          perksSpent := perksSpent + cost;
        }
        i := i + 1;
      }
      assert rows0[..i] == rows0;
      var available := Available(xpText);
      t := Totals(available, statsSpent, perksSpent, available - (statsSpent + perksSpent));
    }

    /** `updateButtons`: the disabled state of every row's controls for the given remaining
        points (reading each base writes it back clamped). */
    method UpdateButtons(remaining: int) returns (buttons: seq<Buttons>)
      modifies this
      ensures rows == BasesWritten(old(rows))
      ensures |buttons| == |rows|
      ensures forall i :: 0 <= i < |rows| ==>
        buttons[i] == Buttons(DecDisabled(old(rows)[i]), IncDisabled(old(rows)[i], remaining))
      ensures levelText == old(levelText) && xpText == old(xpText) && sync == old(sync)
    {
      ghost var rows0 := rows;
      buttons := [];
      var i := 0;
      while i < |rows|
        invariant 0 <= i <= |rows| == |rows0| && |buttons| == i
        invariant forall j :: 0 <= j < i ==> rows[j] == rows0[j].(base := Some(RowBase(rows0[j])))
        invariant forall j :: i <= j < |rows| ==> rows[j] == rows0[j]
        invariant forall j :: 0 <= j < i ==>
          buttons[j] == Buttons(DecDisabled(rows0[j]), IncDisabled(rows0[j], remaining))
        invariant levelText == old(levelText) && xpText == old(xpText) && sync == old(sync)
      {
        var base := GetRowBase(i);
        var current := RowCurrent(rows[i]);
        var kind := rows[i].kind;
        var nextCost := CostToLevel(kind, current + 1);
        buttons := buttons + [Buttons(current <= base, current >= MaxLevel || remaining < nextCost)];
        i := i + 1;
      }
    }

    /** `updateAll`: recompute the totals, then the controls.  Afterwards every row is
        normal, and the totals are those of the rows as they now stand. */
    method UpdateAll() returns (v: View)
      modifies this
      ensures rows == NormalizeAll(old(rows)) && AllNormal(rows)
      ensures v.totals == LedgerOf(old(rows), xpText) && v.totals == LedgerOf(rows, xpText)
      ensures |v.buttons| == |rows|
      ensures forall i :: 0 <= i < |rows| ==>
        v.buttons[i] == Buttons(DecDisabled(rows[i]), IncDisabled(rows[i], v.totals.remaining))
      ensures levelText == old(levelText) && xpText == old(xpText) && sync == old(sync)
    {
      ghost var rows0 := rows;
      var t := ComputeTotals();
      NormalizeAllNormal(rows0);
      BasesWrittenFixesNormal(rows);
      SpentNormalizeAll(rows0, Stat);
      SpentNormalizeAll(rows0, Perk);
      var b := UpdateButtons(t.remaining);
      v := View(t, b);
    }
  
    /** `handleStepClick` on row `i`: a decrement only above the base, an increment only
        below the maximum and when the freshly recomputed remaining points cover the next
        level; a refused step changes nothing.  An approved increment never leaves the
        remaining points negative. */
    method StepClick(i: int, action: Action)
      requires Valid()
      modifies this
      ensures Valid()
      ensures rows == StepRows(old(rows), xpText, i, action)
      ensures levelText == old(levelText) && xpText == old(xpText) && sync == old(sync)
      ensures action == Inc && rows != old(rows) ==> LedgerOf(rows, xpText).remaining >= 0
    {
      if !(0 <= i < |rows|) {
        return;
      }
      ghost var rows0 := rows;
      var base := GetRowBase(i);
      var current := RowCurrent(rows[i]);
      BasesWrittenFixesNormal(rows0);
      assert rows == rows0;
      if action == Dec && current > base {
        Decrement(i, current);
      } else if action == Inc && current < MaxLevel {
        TryIncrement(i, current);
      }
    }

    /** The decrement branch of `handleStepClick`, once `current > base` is known. */
    method Decrement(i: int, current: int)
      requires Valid() && 0 <= i < |rows|
      requires current == rows[i].current.value && current > rows[i].base.value
      modifies this
      ensures Valid()
      ensures rows == DecRows(old(rows), i)
      ensures levelText == old(levelText) && xpText == old(xpText) && sync == old(sync)
    {
      ghost var rows0 := rows;
      SetRowCurrent(i, current - 1);
      DecrementStep(rows0, xpText, i);
      assert rows == DecRows(rows0, i);
      LayoutUpdate(rows0, statCount, i, rows[i]);
      NormalizeAllFixesNormal(rows);
      var view := UpdateAll();
    }

    /** The increment branch of `handleStepClick`, once `current < MaxLevel` is known:
        recompute the totals and step up only when the remaining points cover the next
        level.  A step taken leaves the remaining points non-negative. */
    method TryIncrement(i: int, current: int)
      requires Valid() && 0 <= i < |rows|
      requires current == rows[i].current.value && current < MaxLevel
      modifies this
      ensures Valid()
      ensures rows == IncRows(old(rows), xpText, i)
      ensures levelText == old(levelText) && xpText == old(xpText) && sync == old(sync)
      ensures rows != old(rows) ==> LedgerOf(rows, xpText).remaining >= 0
    {
      var kind := rows[i].kind;
      NormalizeAllFixesNormal(rows);
      var totals := ComputeTotals();
      var nextCost := CostToLevel(kind, current + 1);
      if totals.remaining >= nextCost {
        StepUp(i, current);
      } else {
        IncrementRefused(rows, xpText, i);
      }
    }

    /** An approved increment: row `i` goes up one level, then `updateAll`. */
    method StepUp(i: int, current: int)
      requires Valid() && 0 <= i < |rows|
      requires current == rows[i].current.value
      requires !IncDisabled(rows[i], LedgerOf(rows, xpText).remaining)
      modifies this
      ensures Valid()
      ensures rows == IncRows(old(rows), xpText, i)
      ensures levelText == old(levelText) && xpText == old(xpText) && sync == old(sync)
      ensures LedgerOf(rows, xpText).remaining >= 0
    {
      ghost var rows0 := rows;
      IncrementStep(rows0, xpText, i);
      SetRowCurrent(i, current + 1);
      assert rows == IncRows(rows0, xpText, i);
      LayoutUpdate(rows0, statCount, i, rows[i]);
      NormalizeAllFixesNormal(rows);
      var view := UpdateAll();
    }

    /** `handleBaseChange` after `raw` is typed into row `i`'s base field. */
    method SetBase(i: int, raw: Option<int>)
      requires Valid()
      modifies this
      ensures Valid()
      ensures rows == SetBaseRows(old(rows), i, raw)
      ensures levelText == old(levelText) && xpText == old(xpText) && sync == old(sync)
    {
      if !(0 <= i < |rows|) {
        return;
      }
      ghost var rows0 := rows;
      rows := rows[i := rows[i].(base := raw)];
      var base := GetRowBase(i);
      var current := RowCurrent(rows[i]);
      if current < base {
        SetRowCurrent(i, base);
      }
      assert rows == SetBaseRows(rows0, i, raw);
      SetBaseStep(rows0, i, raw);
      NormalizeAllFixesNormal(rows);
      var view := UpdateAll();
    }

    /** `addRow(perksList, 'perk')`: appends a perk row at base 0, current 0. */
    method AddPerk()
      requires Valid()
      modifies this
      ensures Valid()
      ensures rows == old(rows) + [NewPerk()]
      ensures levelText == old(levelText) && xpText == old(xpText) && sync == old(sync)
    {
      rows := rows + [NewPerk()];
      AddPerkStep(old(rows), statCount, xpText);
      NormalizeAllFixesNormal(rows);
      var view := UpdateAll();
    }

    /** The remove button of perk number `p`: that row disappears; then a recomputation. */
    method RemovePerk(p: int)
      requires Valid()
      modifies this
      ensures Valid()
      ensures rows == RemovePerkRows(old(rows), statCount, p)
      ensures levelText == old(levelText) && xpText == old(xpText) && sync == old(sync)
    {
      if 0 <= p && statCount + p < |rows| {
        RemovePerkStep(rows, statCount, p);
        rows := rows[..statCount + p] + rows[statCount + p + 1..];
      }
      NormalizeAllFixesNormal(rows);
      var view := UpdateAll();
    }

    /** `resetAll`: level 1, synchronisation on, pool 36, stat rows at base = current = 1
        and perk rows at base = current = 0; the perk rows are kept. */
    method ResetAll()
      requires Valid()
      modifies this
      ensures Valid()
      ensures rows == ResetAllRows(old(rows), statCount)
      ensures levelText == Some(1) && sync && xpText == Some(36)
      ensures LedgerOf(rows, xpText).remaining == 36
    {
      levelText := Some(1);
      sync := true;
      SyncXPFromLevel();
      xpText := Some(36);
      ghost var rows0 := rows;
      var i := 0;
      while i < statCount
        invariant 0 <= i <= statCount <= |rows| == |rows0|
        invariant forall j :: 0 <= j < i ==> rows[j] == rows0[j].(base := Some(1), current := Some(1))
        invariant forall j :: i <= j < |rows| ==> rows[j] == rows0[j]
        invariant levelText == Some(1) && sync && xpText == Some(36)
      {
        rows := rows[i := rows[i].(base := Some(1))];
        SetRowCurrent(i, 1);
        i := i + 1;
      }
      while i < |rows|
        invariant statCount <= i <= |rows| == |rows0|
        invariant forall j :: 0 <= j < i ==> rows[j] == ResetAllRows(rows0, statCount)[j]
        invariant forall j :: i <= j < |rows| ==> rows[j] == rows0[j]
        invariant levelText == Some(1) && sync && xpText == Some(36)
      {
        rows := rows[i := rows[i].(base := Some(0))];
        SetRowCurrent(i, 0);
        i := i + 1;
      }
      assert rows == ResetAllRows(rows0, statCount);
      ResetAllRowsStep(rows0, statCount, xpText);
      NormalizeAllFixesNormal(rows);
      var view := UpdateAll();
    }

    /** `resetAllocated`: every row's current level back to its base. */
    method ResetAllocated()
      requires Valid()
      modifies this
      ensures Valid()
      ensures rows == ResetRows(old(rows))
      ensures levelText == old(levelText) && xpText == old(xpText) && sync == old(sync)
    {
      ghost var rows0 := rows;
      var i := 0;
      while i < |rows|
        invariant 0 <= i <= |rows| == |rows0|
        invariant forall j :: 0 <= j < i ==> rows[j] == ResetRows(rows0)[j]
        invariant forall j :: i <= j < |rows| ==> rows[j] == rows0[j]
        invariant levelText == old(levelText) && xpText == old(xpText) && sync == old(sync)
      {
        var base := GetRowBase(i);
        SetRowCurrent(i, base);
        i := i + 1;
      }
      assert rows == ResetRows(rows0);
      ResetRowsStep(rows0, xpText);
      NormalizeAllFixesNormal(rows);
      var view := UpdateAll();
    }

    /** The level field's input handler: `raw` typed in, then synchronisation. */
    method SetLevel(raw: Option<int>)
      requires Valid()
      modifies this
      ensures Valid()
      ensures levelText == Some(Clamp(raw, MinCharLevel, MaxCharLevel))
      ensures xpText == if sync then Some(LevelXP(levelText.value)) else old(xpText)
      ensures sync ==> 36 <= Available(xpText) <= 624
      ensures rows == old(rows) && sync == old(sync)
    {
      levelText := raw;
      SyncXPFromLevel();
      NormalizeAllFixesNormal(rows);
      var view := UpdateAll();
    }

    /** The pool field's input handler: `raw` typed in, written back clamped to `[0, 9999]`. */
    method SetXP(raw: Option<int>)
      requires Valid()
      modifies this
      ensures Valid()
      ensures xpText == Some(Available(raw))
      ensures rows == old(rows) && levelText == old(levelText) && sync == old(sync)
    {
      xpText := raw;
      xpText := Some(Available(xpText));
      NormalizeAllFixesNormal(rows);
      var view := UpdateAll();
    }

    /** The synchronisation switch's change handler. */
    method SetSync(on: bool)
      requires Valid()
      modifies this
      ensures Valid()
      ensures sync == on && levelText == old(levelText)
      ensures xpText == if on then Some(LevelXP(levelText.value)) else old(xpText)
      ensures on ==> 36 <= Available(xpText) <= 624
      ensures rows == old(rows)
    {
      sync := on;
      SyncXPFromLevel();
      NormalizeAllFixesNormal(rows);
      var view := UpdateAll();
    }
  }

  /** A page with one stat row (base 1, no current level yet) and the level field at 5,
      with its default perk row removed: 60 points and the stat at level 1. */
  method LevelFivePage() returns (page: Calculator)
    ensures fresh(page) && page.Valid()
    ensures page.rows == StatAt(1) && page.xpText == Some(LevelXP(5))
  {
    page := new Calculator([Entry(Stat, Some(1), None)], Some(5), None, true);
    assert NormalizeAll([Entry(Stat, Some(1), None)]) == StatAt(1);
    assert page.rows == StatAt(1) + [NewPerk()];
    page.RemovePerk(0);
    assert (StatAt(1) + [NewPerk()])[..1] + (StatAt(1) + [NewPerk()])[2..] == StatAt(1);
  }

  /** On that page three increments of the stat leave 42 points with the alert off, and a
      reset of the allocation gives back all 60. */
  method PageScenario()
  {
    var page := LevelFivePage();
    var xp := Some(LevelXP(5));
    StatScenario();
    page.StepClick(0, Inc);
    assert page.rows == StatAt(2);
    page.StepClick(0, Inc);
    assert page.rows == StatAt(3);
    page.StepClick(0, Inc);
    assert page.rows == StatAt(4);
    assert LedgerOf(page.rows, page.xpText).remaining == 42;
    assert !LedgerOf(page.rows, page.xpText).Alert();
    page.ResetAllocated();
    ResetRowsStep(StatAt(4), xp);
    assert LedgerOf(page.rows, page.xpText).remaining == 60;
  }
}
