# League of Legends dashboard: the analysis pipeline in Dafny

This project models the analysis behind the Streamlit dashboard in
`Streamlit/app.py`. That analysis is a small pipeline over ranked-match
records:

- **Derive.** Each row gains `win_numeric`, the win flag as 0 or 1, and
  `duration_minutes`, the duration in seconds divided by 60. Its
  `solo_tier` label becomes an ordered category over the ten tiers
  IRON < BRONZE < … < CHALLENGER. A label outside that list becomes a
  missing value.
- **Filter.** Three filters exist:
  - a mastery-level range `[lo, hi]` that includes both ends;
  - a set of selected tiers;
  - both together, as one mask.
- **Group and average.** Three analyses follow:
  - the win rate in percent per mastery level;
  - the mean duration per tier;
  - the win rate in percent per tier.
- **Headline figures.** There are two headline figures, and each is 0 when
  there are no rows:
  - the mean duration of one chosen tier, in minutes;
  - the win rate of a slice of the table: the mean of `win_numeric` times
    100, a percentage.

The modules follow that pipeline:

| module | file | contents |
|---|---|---|
| `Maybe` | maybe.dfy | the `Option` type |
| `Tiers` | tiers.dfy | the tier category |
| `Stats` | stats.dfy | sum and mean |
| `Records` | records.dfy | raw and derived rows, derivation, metric columns |
| `Filters` | filters.dfy | boolean masks and `Where`, the `df[mask]` selection |
| `Grouping` | grouping.dfy | group-by-mean by tier and by mastery level |
| `Dashboard` | dashboard.dfy | the three analyses, the slider bounds and the headline figures |
| `Scenarios` | scenarios.dfy | two worked cases on literal tables |

Means are exact: a `real` sum divided by a `real` count. pandas' NaN for a
group without rows is `None`.

Some widget values are inputs to the dashboard, and here they are plain
parameters:

- the two ends of the mastery slider;
- the selected tiers;
- the tier chosen for the headline figure.

The default slider value is the observed `[min, max]` range, given by
`MasteryBounds`. The two tier multiselects have different defaults:

- the duration analysis (`DurationByTier`) starts with every tier selected,
  `AllTiers` (Streamlit/app.py line 98);
- the tier win-rate analysis (`WinRateByTier`) starts with GOLD, PLATINUM
  and DIAMOND, `Dashboard.ComparedTiersDefault` (Streamlit/app.py line 137).

The file has unresolved merge-conflict markers, and its main path is the
HEAD side. The headline mean-or-0 figures sit on the other side of those
conflicts and are modelled too. The duration figure is modelled for a
chosen tier. The win-rate figure is modelled for a slice of the table.

The tier column is an ordered pandas `Categorical`, and `groupby` on it
is called without an `observed` argument. What that call returns depends
on the pandas version:

- With `observed=False`, the long-standing default, there is one row
  for every one of the ten categories, and a tier without rows gets NaN.
  `GroupMeanByTier`, `DurationByTier` and `WinRateByTier` give this view:
  all ten categories in category order, with `None` where pandas has NaN.
- With `observed=True`, the tiers without rows are left out. pandas 2.1
  deprecated the `False` default and announced `True` as the future one.
  `Grouping.Observed` and `Grouping.TierGroups` give this view, with the
  same order and the same values.

`Streamlit/app.py` pins no pandas version, so both views are modelled.

## Model

| member | source | states |
|---|---|---|
| Tiers.Index | Streamlit/app.py:27-28 | every tier has a position in the tier list, and that position holds the tier |
| Tiers.TierOrderIsStrict | Streamlit/app.py:27-29 | the category order is strict along the list, lists every tier exactly once, and ranks any two distinct tiers one way or the other |
| Tiers.Parse | Streamlit/app.py:29 | a label becomes the tier whose name it is; a label naming no tier becomes missing, never some other tier |
| Tiers.ParseName | Streamlit/app.py:27-29 | every tier's own label is read back as that tier |
| Stats.Mean | Streamlit/app.py:76 | the mean is missing exactly for no values; otherwise mean times count equals the sum |
| Stats.MeanBounds | Streamlit/app.py:76-77 | the mean of values within [lo, hi] lies within [lo, hi] |
| Records.DeriveRow | Streamlit/app.py:24-29 | win_numeric is 1 when the match was won and 0 otherwise; duration_minutes times 60 gives back the duration; the raw columns are kept; the tier is t exactly when the label is t's name |
| Records.UnderiveDeriveRow | Streamlit/app.py:24-29 | for a known tier label, the raw row can be recovered from the derived row |
| Records.Derive | Streamlit/app.py:24-29 | the derived table has as many rows as the raw one, and row i is derived from raw row i, so nothing is dropped or reordered: it keeps the raw columns, its win_numeric is 1 exactly for a win, its duration_minutes times 60 is the duration, and its tier is t exactly when the raw label is t's name |
| Records.SumWinColumn | Streamlit/app.py:24 | on derived rows, the sum of the win column is the number of won matches |
| Records.WinMeanIsShare | Streamlit/app.py:76-77 | the mean win flag of a non-empty derived table is wins over rows, within [0, 1] |
| Filters.Where | Streamlit/app.py:68 | a row is kept exactly when it is in the table and the mask holds for it; nothing is added; the table is kept whole exactly when the mask holds everywhere |
| Filters.WhereNone | Streamlit/app.py:99 | a mask that holds for no row selects the empty table |
| Filters.WhereMultiset | Streamlit/app.py:68 | every copy of a selected row is kept and no copy of any other row |
| Filters.WhereIsSubsequence | Streamlit/app.py:68 | the kept rows appear in table order |
| Filters.WhereDrops | Streamlit/app.py:68 | a table with a row the mask rejects becomes strictly shorter |
| Filters.WhereSnoc | Streamlit/app.py:68 | filtering a table with one more row adds that row exactly when the mask holds for it |
| Filters.MaskMeanings | Streamlit/app.py:139-143 | the range mask holds exactly within [lo, hi], both ends included; the combined mask holds exactly for a selected tier within the range |
| Filters.WhereAnd | Streamlit/app.py:139-143 | filtering by one mask and then another equals filtering by their conjunction |
| Filters.WhereCongruent | Streamlit/app.py:139-143 | two masks that agree on every row of the table select the same rows |
| Filters.WhereCommutes | Streamlit/app.py:139-143 | two filters applied in either order give the same table |
| Grouping.TierRowsPresent | Streamlit/app.py:101 | a tier's group is non-empty exactly when the tier occurs in the table |
| Grouping.GroupMeanByTier | Streamlit/app.py:101 | one row per category in category order; a tier has a value exactly when it occurs, and the value is the mean over exactly its rows |
| Grouping.Observed | Streamlit/app.py:101 | keeping only the groups that have a value never adds a group; which groups it keeps and in what order is stated by the Observed lemmas below |
| Grouping.ObservedEmpty | Streamlit/app.py:101 | when no group has a value, nothing is kept |
| Grouping.ObservedSources | Streamlit/app.py:101 | each kept group is a non-empty group of the full grouping, with its value |
| Grouping.ObservedComplete | Streamlit/app.py:101 | each non-empty group of the full grouping is kept |
| Grouping.ObservedOrdered | Streamlit/app.py:101 | dropping empty groups keeps the rest in category order |
| Grouping.ObservedKeys | Streamlit/app.py:101 | the kept tiers are those with a value, listed in the order of the full grouping |
| Grouping.TierGroups | Streamlit/app.py:145 | without empty groups: keys ascend in category order, are exactly the tiers present, and each value is its tier's mean |
| Tiers.AscendingUnique | Streamlit/app.py:27-29 | two tier lists in rising category order with the same members are the same list |
| Grouping.SelectInMembers | Streamlit/app.py:27-29 | listing a set's tiers along a tier list keeps exactly the listed tiers that are in the set |
| Grouping.SelectInAscending | Streamlit/app.py:27-29 | listing a set's tiers along a list in rising category order keeps that order |
| Grouping.SelectInTierOrder | Streamlit/app.py:27-29 | listing a set's tiers along the category order gives exactly the set's members, lowest tier first |
| Grouping.TierGroupsInCategoryOrder | Streamlit/app.py:27-29 | the tier groups are exactly the present tiers in tier-list order, whatever the order of the rows |
| Grouping.TotalsSnoc | Streamlit/app.py:101 | one more row changes only its own tier's sum and count |
| Grouping.MeanFromTotals | Streamlit/app.py:101 | a tier's mean is its sum over its count, or missing when the count is 0 |
| Grouping.BucketStep | Streamlit/app.py:101 | putting a row in its tier's bucket keeps every tier's totals right; a row with a missing tier goes nowhere |
| Grouping.AddToBucket | Streamlit/app.py:101 | adding one row to its tier's bucket turns the totals of a table into those of the table with that row |
| Grouping.TierTotals | Streamlit/app.py:101 | one pass yields, for each category, the sum and the count of that tier's rows |
| Grouping.GroupMeanByTierOnePass | Streamlit/app.py:101 | the one-pass grouping equals the declarative grouping by tier |
| Grouping.MinLevel | Streamlit/app.py:57 | the smallest mastery level of a non-empty table is attained and bounds every row |
| Grouping.OtherLevelsUnchanged | Streamlit/app.py:76 | removing the rows at one level leaves every other level's rows unchanged |
| Grouping.SplitAtMinLevel | Streamlit/app.py:76 | removing the lowest level's rows leaves a shorter table that has exactly the other levels |
| Grouping.RemainingLevels | Streamlit/app.py:76 | removing the rows at the lowest level leaves exactly the other levels, all above it |
| Grouping.GroupMeanByMastery | Streamlit/app.py:76 | grouping by mastery level gives one group per level that occurs, in strictly ascending level order, each holding the mean over exactly the rows at its level |
| Grouping.ConsMeans | Streamlit/app.py:76 | the lowest level's group put in front of the other levels' groups keeps every group's mean equal to the mean over its level's rows in the whole table |
| Grouping.MaxLevel | Streamlit/app.py:58 | the largest mastery level of a non-empty table is attained and bounds every row |
| Dashboard.MasteryBounds | Streamlit/app.py:57-58 | the slider bounds exist exactly for a non-empty table, bound every row's level, and are levels that occur |
| Dashboard.FilterMasteryRange | Streamlit/app.py:68 | a row is kept exactly when its level lies in [lo, hi], both ends included |
| Dashboard.FilterMasteryRangeKeepsOrder | Streamlit/app.py:68 | the range filter keeps every copy of an in-range row, none of the others, in table order |
| Dashboard.FilterTiers | Streamlit/app.py:99 | a row is kept exactly when its tier is known and selected; an empty selection keeps nothing |
| Dashboard.FilterTiersKeepsOrder | Streamlit/app.py:99 | the tier filter keeps every copy of a selected row, none of the others, in table order |
| Dashboard.FilterTierAndRange | Streamlit/app.py:139-143 | the combined filter equals the tier filter after the range filter and the range filter after the tier filter, and keeps exactly the rows that satisfy both |
| Dashboard.TierThenRange | Streamlit/app.py:139-143 | the combined mask selects what the tier filter and then the range filter select |
| Dashboard.RangeThenTier | Streamlit/app.py:139-143 | the combined mask selects what the range filter and then the tier filter select |
| Dashboard.DefaultRangeKeepsAll | Streamlit/app.py:57-68 | with the slider at its default observed range, the range filter keeps the whole table |
| Dashboard.DefaultTiersKeepKnown | Streamlit/app.py:98-99 | with every tier selected, exactly the rows with a known tier are kept, which is the whole table when every tier is known |
| Dashboard.LevelRowsInRange | Streamlit/app.py:68-76 | for a level inside the range, the range filter leaves that level's rows unchanged |
| Dashboard.PercentGroups | Streamlit/app.py:77 | converting to percent keeps every group's level in place and scales its value to percent |
| Dashboard.PercentGroupsKeys | Streamlit/app.py:77 | scaling to percent keeps the set of levels |
| Dashboard.FilteredLevels | Streamlit/app.py:68 | the levels left by the range filter are exactly the table's levels within the range |
| Dashboard.WinRateByMastery | Streamlit/app.py:68-77 | the first analysis lists levels in strictly ascending order, has a row exactly for each level that occurs within [lo, hi], and each value is 100 times the mean win flag over all the table's rows at that level |
| Dashboard.WinRateByMasteryShareAt | Streamlit/app.py:76-77 | on derived rows, each value is 100 times wins over rows at that level, within [0, 100] |
| Dashboard.WinRateByMasteryValues | Streamlit/app.py:76-77 | every value of the first analysis is a win percentage within [0, 100] |
| Dashboard.SelectedTierRows | Streamlit/app.py:99-101 | for a selected tier, the tier filter leaves that tier's rows unchanged |
| Dashboard.DurationByTier | Streamlit/app.py:98-101 | the second analysis has one row per category in category order; a selected tier's value is its mean duration over all its rows, and an unselected tier's value is missing |
| Dashboard.DurationByTierEmptySelection | Streamlit/app.py:98-101 | with no tier selected, the second analysis shows no group once empty groups are left out |
| Dashboard.PercentTiers | Streamlit/app.py:146 | converting to percent keeps every tier in place, keeps a missing value missing, and scales a present value to percent |
| Dashboard.WinRateByTier | Streamlit/app.py:139-146 | the third analysis has one row per category in category order; a tier has a value exactly when it is selected and occurs within the range, and that value is 100 times the tier's mean win flag within the range |
| Dashboard.TierAndRangeGroups | Streamlit/app.py:139-145 | before the percent conversion, a tier has a mean exactly when it is selected and occurs within the range, and a selected tier's mean is taken over its rows within the range |
| Dashboard.WinRateByTierBounds | Streamlit/app.py:145-146 | on derived rows, every value of the third analysis lies within [0, 100] |
| Dashboard.HeadlineDuration | Streamlit/app.py:121-123 | the headline duration is 0 when the tier has no rows, and otherwise it times the row count equals the tier's total minutes |
| Dashboard.HeadlineMatchesTrend | Streamlit/app.py:121-123 | the headline duration equals the second analysis' value for that tier over all tiers, with 0 for a missing value |
| Dashboard.HeadlineWinRate | Streamlit/app.py:73 | the headline win rate is 0 for an empty slice; on derived rows it is 100 times wins over rows, within [0, 100] |
| Scenarios.RangeScenario | Streamlit/app.py:139-146 | one GOLD win at level 15, one GOLD loss at 25 and one SILVER win at 5, with the range [10, 30], give GOLD 50 percent and SILVER nothing |
| Scenarios.OrderScenario | Streamlit/app.py:101 | rows tagged BRONZE, GOLD, BRONZE, SILVER group as BRONZE, SILVER, GOLD |

## Left out

- Streamlit widgets, titles, sidebar, messages and `st.stop()`: these are presentation. The slider, multiselect and selectbox values are parameters.
- The analysis selectbox and its branching: each analysis is its own function.
- CSV loading and the `@st.cache_data` cache: this is file I/O. The table is a `seq` of rows.
- The missing-file error path: this is file I/O.
- Plotly chart construction and styling: these render the results and compute nothing.
- Mastery binning (`mastery_bin`, `labels_mastery`): it is referenced on the conflicting side of a merge and defined nowhere, so its bin edges do not exist.
- Dashboard.HeadlineWinRate: takes the slice the undefined bin filter would produce as a parameter, because that filter does not exist.
- IEEE floating point: pandas averages in binary floating point, and the model uses exact `real` arithmetic.
- Rows with a missing value in any column (`win`, `duration`, `mastery_level`): every row has a `bool` win flag, a `real` duration and an `int` level, because missing cells in the data set are not modelled. Two effects are therefore absent:
  - A missing `win` cell makes `astype(int)` raise (Streamlit/app.py line 24), so the dashboard would stop before any analysis.
  - A missing `duration` gives a NaN `duration_minutes` (line 25). pandas' `mean` skips NaN, so the duration means of lines 101 and 123 would average over fewer rows than the group has. A tier whose durations are all missing would show NaN at line 123, not 0, because that tier is not empty.
- Dashboard.MasteryBounds: returns `None` for an empty table, where the code raises on converting a NaN minimum to an integer.
- The merge-conflict markers and the stray `--` line: these stop the file from running as written. The model follows the HEAD side and also models the headline figures from the other side.
