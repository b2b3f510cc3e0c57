# Allocation and cost engine of the stat calculator

This project models the engine behind the point-allocation calculator in `app.js`.
A character has a pool of experience points (XP), which either follows the character level
(`30 + 6 · level`) or is typed in directly. The points are spent one level at a time on a
fixed list of stat rows and a growable list of perk rows. Each row has a kind, a base level
and a current level. The incremental cost of each level comes from a per-kind table with
`MAX_LEVEL = 6`.

The project's modules:

- `Wrappers` (`wrappers.dfy`) defines `Option`. `None` stands for a number field whose text
  is not a number (JavaScript's `NaN`).
- `Numeric` (`numeric.dfy`) holds `clamp`.
- `Cost` (`cost.dfy`) holds the two tables and `costToLevel`. It gives `costBetween` twice:
  as the loop the source runs (the method `CostBetween`) and as a recursive reference
  definition (`SumCosts`). It also proves the recurrence, split, monotonicity and worked
  values.
- `Entries` (`entries.dfy`) defines a row. The row keeps the raw value of its base field and
  of its current-level attribute, as the page does. The module models `getRowBase` and
  `getRowCurrent`, and the normalisation `updateRowCost` applies (base clamped to the kind's
  range, current raised to the base).
- `Ledger` (`ledger.dfy`) holds the spending by kind, `getXP`, the totals `computeTotals`
  displays (with the alert flag), the disable predicates of `updateButtons` and the level
  pool.
- `Transitions` (`transitions.dfy`) gives each intent's effect on the row list as a pure
  function of the rows before it. Its lemmas are the properties the calculator promises:
  - an approved increment charges exactly the next level and never leaves the remaining
    points negative;
  - a refused step changes nothing;
  - a decrement followed by an increment is a round trip;
  - the disabled controls are exactly the refused steps;
  - the resets spend nothing, and resetting the allocation is idempotent;
  - adding a perk costs nothing, and removing one refunds exactly its cost.
- `Store` (`store.dfy`) holds the class `Calculator`. Its fields are the rows in document
  order (the first `statCount` rows are stat rows), the raw level and XP fields, and the
  sync switch. The source functions that read or write the page (`getRowBase`,
  `setRowCurrent`, `updateRowCost`, `computeTotals`, `updateButtons`, `updateAll`,
  `syncXPFromLevel`) and the event handlers are methods. Their postconditions state the new
  fields through the `Numeric` function `Clamp` and the `Entries` and `Ledger` functions. The pure helpers (`clamp`,
  `costToLevel`, `getRowCurrent`, `getXP`) are the functions `Clamp`, `CostToLevel`,
  `RowCurrent` and `Available`.
  Each handler that changes rows (`StepClick`, `SetBase`, `AddPerk`, `RemovePerk`,
  `ResetAll`, `ResetAllocated`) ties its new rows to a `Transitions` function of the old
  ones; `SetLevel`, `SetXP` and `SetSync` keep the rows unchanged. The step handler is split into `Decrement`, `TryIncrement` and `StepUp`, one
  method per branch of `handleStepClick`. `Valid()` states three things: every row is
  normalised; the stat rows come first and the perk rows after (`Layout`); the level lies
  in `[1, 99]`. Every handler keeps it. `PageScenario` is a client that replays the
  level-5 example through the class.

Inputs from the page become parameters:
- the stat rows, which live in the HTML, are a constructor argument;
- a typed base, level or XP value is the handler's `raw` argument;
- the step buttons and remove buttons are row and perk indices.

Base edits are not the only way to reach the negative-remaining alert. Lowering the
level, typing a smaller XP value or switching synchronisation on can also bring the pool
below what is spent. `SetLevel`, `SetXP` and `SetSync` keep the rows unchanged and do not
promise a non-negative remaining amount.

## Model

| member | source | states |
|---|---|---|
| `Numeric.Clamp` | app.js:27-30 | a non-number gives the minimum; otherwise the result lies in `[lo, hi]`, equals the value when it is already inside, and equals the nearer bound when it is outside (and `hi` when `hi < lo`) |
| `Cost.Table` | app.js:5-8 | each kind's table has `MAX_LEVEL + 1` non-negative entries and starts with 0 |
| `Cost.CostToLevel` | app.js:32-36 | 0 for levels `<= 0`, the table entry for levels 1..6, the table's last entry (15 for a stat, 10 for a perk) beyond; never negative and at most 15 |
| `Cost.CostToLevelMonotone` | app.js:32-36 | the incremental cost never decreases as the level rises |
| `Cost.SumCosts` | app.js:38-44 | the cumulative cost is 0 when `current <= base`, never negative and at most 15 per level (the largest table entry) |
| `Cost.CostBetween` | app.js:38-44 | the loop's sum equals the cost of levels `base + 1` through `current`, that is, 0 when `current <= base` and otherwise the cost up to `current - 1` plus the cost of `current` |
| `Cost.SumCostsSplit` | app.js:38-44 | the cost of a range of levels is the sum of the costs of its two halves at any intermediate level |
| `Cost.SumCostsFromBase` | app.js:38-44 | the cost of a non-empty range is the first level's cost plus the cost of the rest |
| `Cost.SumCostsMonotone` | app.js:38-44 | the cumulative cost is non-decreasing in the target level |
| `Cost.SumCostsAntitoneInBase` | app.js:38-44 | the cumulative cost is non-increasing in the base level |
| `Cost.SumCostsExamples` | app.js:38-44 | a stat from 1 to 4 costs 18, a perk from 0 to 3 costs 7, the full stat range 1..6 costs 45 and the full perk range 0..6 costs 31 |
| `Entries.RowBase` | app.js:50-58 | the base read from the field lies in `[1, 6]` for a stat and in `[0, 6]` for a perk; a non-number gives the kind's minimum, an in-range number is kept |
| `Entries.RowCurrent` | app.js:60-62 | the current level read lies in `[0, 6]`; a non-number gives 0, an in-range number is kept |
| `Entries.Normalize` | app.js:73-81 | after `updateRowCost` the row is normal (base in its kind's range, `base <= current <= 6`); the base is the clamped field, and the current level is kept when it is at least the base and raised to the base otherwise |
| `Entries.NormalizeFixesNormal` | app.js:73-81 | recomputing a normal row leaves it unchanged |
| `Entries.RowCost` | app.js:73-81 | a row's cost is never negative and is 0 when the current level does not exceed the base |
| `Entries.RowCostNormalize` | app.js:73-81 | normalising a row does not change its cost |
| `Ledger.Share` | app.js:94-95 | a row adds a non-negative amount to the spending of a kind |
| `Ledger.Spent` | app.js:87-96 | the spending on a kind is never negative |
| `Ledger.Available` | app.js:83-85 | the pool lies in `[0, 9999]`; a non-number gives 0, an in-range number is kept |
| `Ledger.Totals.Alert` | app.js:106 | for totals whose remaining figure is the pool minus the spending, the alert is on exactly when more is spent than the pool holds |
| `Ledger.LedgerOf` | app.js:98-108 | remaining never exceeds available, and the alert is on exactly when the stats and perks spent exceed the pool, that is, when remaining is negative |
| `Ledger.NormalizeAll` | app.js:91-96 | the recompute gives one row per row, each keeping its kind and its cost |
| `Ledger.NormalizeAllNormal` | app.js:91-96 | after a totals recompute every row is normal and keeps its kind |
| `Ledger.NormalizeAllFixesNormal` | app.js:91-96 | a recompute changes nothing on rows that are already normal |
| `Ledger.SpentAppend` | app.js:212-216 | appending a row adds exactly its share to the spending |
| `Ledger.SpentUpdate` | app.js:87-96 | replacing one row changes the spending by exactly the new share minus the old share |
| `Ledger.SpentRemove` | app.js:280-284 | removing one row removes exactly its share from the spending |
| `Ledger.SpentNormalizeAll` | app.js:91-96 | a recompute does not change the spending on either kind |
| `Ledger.SpentPartition` | app.js:94-99 | stat spending plus perk spending is the cost of all rows |
| `Ledger.DecDisabled` | app.js:118 | on a normal row the decrement control is disabled exactly when the current level equals the base; it is always disabled at level 0 |
| `Ledger.IncDisabled` | app.js:119-121 | the increment control is always disabled at the maximum level and whenever remaining is negative; once remaining is at least 15 (the largest table entry) it is disabled only at the maximum level |
| `Ledger.LevelXP` | app.js:135 | for a level in `[1, 99]` the synchronised pool `30 + 6 · level` lies in `[36, 624]` and `getXP` does not clamp it |
| `Ledger.LevelXPIncreasing` | app.js:135 | the synchronised pool grows strictly with the level; level 1 gives 36, level 5 gives 60 and level 99 gives 624 |
| `Transitions.NewPerk` | app.js:177-196 | the row `createDynamicRow` builds is a normal perk row with base 0 and current 0, costing nothing |
| `Transitions.DecRows` | app.js:150-154 | only row `i` may change, keeping its kind and base; it changes exactly when its current level is above its base, and then drops one level |
| `Transitions.IncRows` | app.js:156-163 | only row `i` may change, keeping its kind and base; it changes exactly when it is below the maximum and the recomputed remaining covers the next level's cost, and then rises one level |
| `Transitions.StepRows` | app.js:142-164 | a step click changes at most the clicked row, and then by one level in the button's direction |
| `Transitions.SetBaseRows` | app.js:166-175 | row `i` becomes normal with the clamped value as its base and its current level raised to that base if it was below; no other row changes |
| `Transitions.RemovePerkRows` | app.js:280-284 | one row fewer when the perk exists, no change otherwise; the stat rows are never touched |
| `Transitions.ResetRows` | app.js:243-249 | every row keeps its kind and base, and its current level is back at the base |
| `Transitions.ResetAllRows` | app.js:222-241 | every row keeps its kind and has nothing allocated above its base; bases become 1 in the stat positions and 0 in the perk positions |
| `Transitions.AffordanceMatchesSteps` | app.js:118-121 | on normal rows the decrement control is disabled exactly when a decrement changes nothing, and the increment control (with the recomputed remaining) exactly when an increment changes nothing |
| `Transitions.DecrementStep` | app.js:150-154 | an allowed decrement lowers that row's current level by exactly 1, keeps the rows normal and raises remaining by exactly the cost of the level given up |
| `Transitions.ChangeCurrent` | app.js:64-81 | setting one normal row's current level to any level in `[base, 6]` keeps the rows normal and moves remaining by exactly the old cost of that row minus the new cost |
| `Transitions.IncrementStep` | app.js:156-163 | an approved increment raises that row's current level by exactly 1, keeps the rows normal, lowers remaining by exactly the next level's cost and leaves remaining `>= 0` |
| `Transitions.IncrementRefused` | app.js:156-163 | when the increment is disabled (at the maximum, or the next level costs more than remains) the rows do not change |
| `Transitions.DecIncRoundTrip` | app.js:142-164 | a decrement followed by an increment on the same row restores the rows and the totals, provided remaining was not negative before |
| `Transitions.SetBaseStep` | app.js:166-175 | a base change sets the base to the clamped raw value, sets current to the larger of the old current and the new base (raised, never lowered), leaves the other rows alone and keeps the rows normal |
| `Transitions.AddPerkStep` | app.js:177-216 | appending the new perk row (base 0, current 0) keeps the rows normal and the layout, and leaves every total unchanged |
| `Transitions.RemovePerkStep` | app.js:280-284 | removing a perk row removes exactly that row, removes exactly its cost from perk spending, leaves stat spending unchanged and keeps the layout |
| `Transitions.RemoveKeepsShape` | app.js:280-284 | removing a row that is not a stat row keeps every row normal and keeps stat rows first, perk rows after |
| `Transitions.ResetRowsSpendNothing` | app.js:243-249 | after `resetAllocated` no kind has any spending |
| `Transitions.ResetRowsStep` | app.js:243-249 | `resetAllocated` keeps the row count, the kinds and the bases, sets every current level to its base, makes total spending 0 (remaining = available) and is idempotent |
| `Transitions.ResetAllRowsSpendNothing` | app.js:222-241 | after `resetAll` no kind has any spending |
| `Transitions.ResetAllRowsStep` | app.js:222-241 | `resetAll` keeps the row count and the layout, sets every stat row to base = current = 1 and every perk row to base = current = 0, and leaves remaining equal to available |
| `Transitions.PerkScenario` | app.js:156-163 | with a pool of 5 and one new perk, increments cost 1 and 2 (leaving 4, then 2), and a third increment, costing 4, is refused |
| `Transitions.StatAtLedger` | app.js:87-109 | with a single stat row at base 1, remaining is the pool minus the cost of the levels from 1 up to the current one |
| `Transitions.StatAtStep` | app.js:156-163 | with a single stat row at base 1 below the maximum, an increment the remaining points cover raises it by one level |
| `Transitions.StatScenario` | app.js:156-163 | with a pool of 60 and a stat at base 1, three increments reach level 4 and leave 42; the fourth costs 12 and leaves 30 |
| `Store.BasesWrittenFixesNormal` | app.js:50-58 | writing the clamped bases back changes nothing on normal rows |
| `Store.Calculator.constructor` | app.js:294-298 | the loaded page holds the normalised stat rows plus one new perk row, the level clamped to `[1, 99]` and, with sync on, the pool of that level |
| `Store.Calculator.SyncXPFromLevel` | app.js:131-140 | the level field is clamped to `[1, 99]`; with sync on the XP field becomes `30 + 6 · level`, otherwise it is kept |
| `Store.Calculator.GetRowBase` | app.js:50-58 | returns the clamped base and writes it back into the row; nothing else changes |
| `Store.Calculator.SetRowCurrent` | app.js:64-71 | stores the value clamped to `[0, 6]` as the row's current level; nothing else changes |
| `Store.Calculator.UpdateRowCost` | app.js:73-81 | normalises exactly one row and returns its cost |
| `Store.Calculator.ComputeTotals` | app.js:87-109 | normalises every row and returns the ledger of the rows: stat and perk spending, the clamped pool and `remaining = available - spent` |
| `Store.Calculator.UpdateButtons` | app.js:111-124 | for every row, the decrement control is disabled iff `current <= base` and the increment control iff `current >= 6` or remaining is less than the next level's cost |
| `Store.Calculator.UpdateAll` | app.js:126-129 | leaves every row normal and displays the totals of the rows as they now stand, with the controls' disabled state for those totals |
| `Store.Calculator.StepClick` | app.js:142-164 | a step click has exactly the effect of `DecRows`/`IncRows`, keeps the store valid, and an increment that changes anything leaves remaining `>= 0` |
| `Store.Calculator.Decrement` | app.js:150-154 | once `current > base` is known, has exactly the effect of `DecRows` and keeps the store valid |
| `Store.Calculator.TryIncrement` | app.js:156-163 | once `current < 6` is known, recomputes the totals and has exactly the effect of `IncRows`; a step it takes leaves remaining `>= 0` |
| `Store.Calculator.StepUp` | app.js:159-162 | an increment the recomputed remaining covers raises row `i` by one level, keeps the store valid and leaves remaining `>= 0` |
| `Store.Calculator.SetBase` | app.js:166-175 | a base edit has exactly the effect of `SetBaseRows` and keeps the store valid |
| `Store.Calculator.AddPerk` | app.js:212-216 | appends exactly one new perk row at base 0, current 0 |
| `Store.Calculator.RemovePerk` | app.js:280-284 | removes exactly the indicated perk row, and does nothing when there is none |
| `Store.Calculator.ResetAll` | app.js:222-241 | level 1, sync on, XP 36, stat rows at 1/1 and perk rows at 0/0 with none removed, and remaining 36 |
| `Store.Calculator.ResetAllocated` | app.js:243-249 | sets every current level to its base, with the bases, the row list and the other fields unchanged |
| `Store.Calculator.SetLevel` | app.js:251-254 | the level is the clamped typed value; with sync on the pool follows it and lies in `[36, 624]`; the rows are unchanged |
| `Store.Calculator.SetXP` | app.js:256-259 | the XP field is written back clamped to `[0, 9999]`; the rows are unchanged |
| `Store.Calculator.SetSync` | app.js:261-264 | the switch takes the new value; when it is on the pool is recomputed from the level and lies in `[36, 624]`; the rows are unchanged |
| `Store.LevelFivePage` | app.js:294-298 | a page loaded with one stat row at base 1 and the level at 5, with its default perk removed, holds that stat at level 1 and a pool of 60 |

## Left out

- Rendering is not modelled. This covers building a perk row's markup (its name input,
  type select and labels), writing the totals and per-row costs into the page, the alert
  class and the disabled state of the XP field. The model keeps only the values shown:
  `Totals` with `Alert()`, `RowCost` and the `Buttons` flags.
- Event wiring is not modelled (app.js:251-292). Each handler is a method called directly.
  A typed value is the handler's argument. A clicked button is a row index (step buttons)
  or a perk index (remove buttons).
- JavaScript number parsing is not modelled. Field values are integers or `None` (not a
  number). Fractional, infinite and exponent-form numbers are not represented, and numbers
  are unbounded integers (every value here is small).
- `Store.Calculator.SetXP` can be called while synchronisation is on. The page prevents
  that by disabling the XP field, so keeping the pool equal to `30 + 6 · level` under sync
  is stated only for `SetLevel`, `SetSync`, `ResetAll` and the constructor, and not as part
  of `Valid()`.
- `Store.Calculator.StepClick`: a refused increment below the maximum re-renders the totals
  but not the controls. The model returns no view from the handlers, so that difference in
  what is redrawn is not captured; the state is the same either way.
- `clearDynamic` (app.js:218-220) is never called, so it is not modelled.
- The stat rows come from the page's HTML, which is not part of this model. Their number
  and initial values are constructor parameters. Whether a stat row could carry a remove
  button is not known, so removal is modelled for perk rows only.
- The page layout is assumed, not modelled. Every `.row[data-kind]` row is taken to be
  either a stat row inside `#stats-panel` or a perk row inside `#perks-list`, with the stat
  rows first in document order. The model therefore treats three groups as one: the rows
  `resetAll` selects by container (app.js:228, app.js:234), the rows of each kind, and the
  first `statCount` rows.
- Row lookup by `closest`/`querySelector` and state kept in `dataset` are replaced by
  indices and typed fields. A handler given an index with no row does nothing, as the
  source's `if (!row) return` does.
