/** The three analyses of the dashboard and its headline figures, each a
    filter followed by a grouped mean (Streamlit/app.py lines 53-146). The
    slider, multiselect and selectbox values arrive as plain parameters. */
module Dashboard {
  import opened Maybe
  import opened Tiers
  import opened Stats
  import opened Records
  import opened Filters
  import opened Grouping

  /** Every row of the table satisfies the derivation invariant. */
  predicate AllWellFormed(df: seq<Record>) {
    forall x :: x in df ==> WellFormed(x)
  }

  /** The tiers the tier win-rate analysis selects before the user
      changes anything; the duration analysis starts from `AllTiers`. */
  const ComparedTiersDefault: set<Tier> := {Gold, Platinum, Diamond}

  /** The slider's bounds: the lowest and highest mastery level in the
      table. An empty table has none (converting pandas' NaN minimum to an
      integer fails). */
  function MasteryBounds(df: seq<Record>): (b: Option<(int, int)>)
    ensures b.None? <==> |df| == 0
    ensures b.Some? ==> forall x :: x in df ==> b.value.0 <= x.masteryLevel <= b.value.1
    ensures b.Some? ==> b.value.0 in Levels(df) && b.value.1 in Levels(df)
  {
    if |df| == 0 then None
    else
      var lo, hi := MinLevel(df), MaxLevel(df);
      assert lo in Levels(df) && hi in Levels(df) by {
        var i :| 0 <= i < |df| && df[i].masteryLevel == lo;
        var j :| 0 <= j < |df| && df[j].masteryLevel == hi;
        assert df[i] in df && df[j] in df;
      }
      Some((lo, hi))
  }

  /** The mastery slider filter: rows whose level lies in [lo, hi], both
      ends included, in table order. */
  function FilterMasteryRange(df: seq<Record>, lo: int, hi: int): (kept: seq<Record>)
    ensures forall x :: x in kept <==> x in df && lo <= x.masteryLevel <= hi
  {
    MaskMeanings(lo, hi, {});
    Where(df, MasteryRange(lo, hi))
  }

  /** The tier multiselect filter: rows whose tier is one of the selected
      ones. A row with a missing tier is never kept, and an empty selection
      keeps nothing. */
  function FilterTiers(df: seq<Record>, selected: set<Tier>): (kept: seq<Record>)
    ensures forall x :: x in kept <==> x in df && x.tier.Some? && x.tier.value in selected
    ensures selected == {} ==> kept == []
  {
    WhereNone(df, TierIn(selected));
    Where(df, TierIn(selected))
  }

  /** The mastery filter keeps every copy of an in-range row and no copy of
      any other row, and keeps the rows in table order. */
  lemma FilterMasteryRangeKeepsOrder(df: seq<Record>, lo: int, hi: int)
    ensures forall x ::
      multiset(FilterMasteryRange(df, lo, hi))[x] == (if lo <= x.masteryLevel <= hi then multiset(df)[x] else 0)
    ensures IsSubsequence(FilterMasteryRange(df, lo, hi), df)
  {
    MaskMeanings(lo, hi, {});
    WhereMultiset(df, MasteryRange(lo, hi));
    WhereIsSubsequence(df, MasteryRange(lo, hi));
  }

  /** The tier filter keeps every copy of a selected row and no copy of any
      other row, and keeps the rows in table order. */
  lemma FilterTiersKeepsOrder(df: seq<Record>, selected: set<Tier>)
    ensures forall x ::
      multiset(FilterTiers(df, selected))[x] == (if x.tier.Some? && x.tier.value in selected then multiset(df)[x] else 0)
    ensures IsSubsequence(FilterTiers(df, selected), df)
  {
    WhereMultiset(df, TierIn(selected));
    WhereIsSubsequence(df, TierIn(selected));
  }

  /** The filter of the third analysis: the tier selection and the mastery
      range in one mask. It equals applying the two filters one after the
      other, in either order. */
  function FilterTierAndRange(df: seq<Record>, selected: set<Tier>, lo: int, hi: int): (kept: seq<Record>)
    ensures kept == FilterTiers(FilterMasteryRange(df, lo, hi), selected)
    ensures kept == FilterMasteryRange(FilterTiers(df, selected), lo, hi)
    ensures forall x :: x in kept <==>
      x in df && x.tier.Some? && x.tier.value in selected && lo <= x.masteryLevel <= hi
  {
    var both := TierAndRange(selected, lo, hi);
    MaskMeanings(lo, hi, selected);
    TierThenRange(df, selected, lo, hi);
    RangeThenTier(df, selected, lo, hi);
    Where(df, both)
  }

  lemma TierThenRange(df: seq<Record>, selected: set<Tier>, lo: int, hi: int)
    ensures Where(df, TierAndRange(selected, lo, hi)) == Where(Where(df, TierIn(selected)), MasteryRange(lo, hi))
  {
    MaskMeanings(lo, hi, selected);
    WhereAnd(df, TierIn(selected), MasteryRange(lo, hi));
    WhereCongruent(df, TierAndRange(selected, lo, hi), And(TierIn(selected), MasteryRange(lo, hi)));
  }

  lemma RangeThenTier(df: seq<Record>, selected: set<Tier>, lo: int, hi: int)
    ensures Where(df, TierAndRange(selected, lo, hi)) == Where(Where(df, MasteryRange(lo, hi)), TierIn(selected))
  {
    MaskMeanings(lo, hi, selected);
    WhereAnd(df, MasteryRange(lo, hi), TierIn(selected));
    WhereCongruent(df, TierAndRange(selected, lo, hi), And(MasteryRange(lo, hi), TierIn(selected)));
  }

  /** With the slider left at its default, the full observed range, the
      mastery filter keeps the whole table. */
  lemma DefaultRangeKeepsAll(df: seq<Record>)
    requires |df| > 0
    ensures FilterMasteryRange(df, MasteryBounds(df).value.0, MasteryBounds(df).value.1) == df
  {
    var (lo, hi) := MasteryBounds(df).value;
    MaskMeanings(lo, hi, {});
    assert forall x :: x in df ==> Holds(MasteryRange(lo, hi), x);
  }

  /** With the multiselect left at its default, every tier, the tier filter
      keeps exactly the rows whose tier is known. */
  lemma DefaultTiersKeepKnown(df: seq<Record>)
    ensures forall x :: x in FilterTiers(df, AllTiers) <==> x in df && x.tier.Some?
    ensures (forall x :: x in df ==> x.tier.Some?) ==> FilterTiers(df, AllTiers) == df
  {
    TierOrderIsStrict();
    assert forall x :: x in df && x.tier.Some? ==> Holds(TierIn(AllTiers), x);
  }

  /** A mean of the win column as a percentage. */
  function Percent(v: real): real {
    v * 100.0
  }

  function PercentGroups(g: seq<Group<int>>): (p: seq<Group<int>>)
    ensures |p| == |g|
    ensures forall i :: 0 <= i < |g| ==> p[i] == Group(g[i].key, Percent(g[i].value))
  {
    seq(|g|, i requires 0 <= i < |g| => Group(g[i].key, Percent(g[i].value)))
  }

  function PercentTiers(g: seq<TierMean>): (p: seq<TierMean>)
    ensures |p| == |g|
    ensures forall i :: 0 <= i < |g| ==>
      p[i].tier == g[i].tier && p[i].mean == (if g[i].mean.Some? then Some(Percent(g[i].mean.value)) else None)
  {
    seq(|g|, i requires 0 <= i < |g| =>
      TierMean(g[i].tier, if g[i].mean.Some? then Some(Percent(g[i].mean.value)) else None))
  }

  /** First analysis: win rate in percent per mastery level, over the rows
      within the slider range. */
  function WinRateByMastery(df: seq<Record>, lo: int, hi: int): (w: seq<Group<int>>)
    ensures forall i, j :: 0 <= i < j < |w| ==> w[i].key < w[j].key
    ensures forall l :: l in Keys(w) <==> l in Levels(df) && lo <= l <= hi
    ensures forall i :: 0 <= i < |w| ==>
      var levelMean := MeanOf(Where(df, LevelIs(w[i].key)), WinNumeric);
      && lo <= w[i].key <= hi
      && levelMean.Some?
      && w[i].value == 100.0 * levelMean.value
  {
    var filtered := FilterMasteryRange(df, lo, hi);
    var means := GroupMeanByMastery(filtered, WinNumeric);
    PercentGroupsKeys(means);
    FilteredLevels(df, lo, hi);
    assert forall i :: 0 <= i < |means| ==>
      lo <= means[i].key <= hi && Where(filtered, LevelIs(means[i].key)) == Where(df, LevelIs(means[i].key)) by {
      forall i | 0 <= i < |means|
        ensures lo <= means[i].key <= hi && Where(filtered, LevelIs(means[i].key)) == Where(df, LevelIs(means[i].key))
      {
        assert means[i].key in Keys(means);
        LevelRowsInRange(df, lo, hi, means[i].key);
      }
    }
    PercentGroups(means)
  }

  /** The rows at one mastery level are the same before and after a range
      filter that includes that level. */
  lemma LevelRowsInRange(df: seq<Record>, lo: int, hi: int, k: int)
    requires lo <= k <= hi
    ensures Where(FilterMasteryRange(df, lo, hi), LevelIs(k)) == Where(df, LevelIs(k))
  {
    MaskMeanings(lo, hi, {});
    WhereAnd(df, MasteryRange(lo, hi), LevelIs(k));
    WhereCongruent(df, And(MasteryRange(lo, hi), LevelIs(k)), LevelIs(k));
  }

  /** Converting to percentages keeps every key in place. */
  lemma PercentGroupsKeys(g: seq<Group<int>>)
    ensures Keys(PercentGroups(g)) == Keys(g)
  {
    var p := PercentGroups(g);
    assert forall k :: k in Keys(p) ==> k in Keys(g) by {
      forall k | k in Keys(p) ensures k in Keys(g) {
        var i :| 0 <= i < |p| && p[i].key == k;
        assert g[i].key == k;
      }
    }
    assert forall k :: k in Keys(g) ==> k in Keys(p) by {
      forall k | k in Keys(g) ensures k in Keys(p) {
        var i :| 0 <= i < |g| && g[i].key == k;
        assert p[i].key == k;
      }
    }
  }

  /** The levels left by the range filter are those of the table within
      the range. */
  lemma FilteredLevels(df: seq<Record>, lo: int, hi: int)
    ensures forall l :: l in Levels(FilterMasteryRange(df, lo, hi)) <==> l in Levels(df) && lo <= l <= hi
  {
    var filtered := FilterMasteryRange(df, lo, hi);
    forall l | l in Levels(df) && lo <= l <= hi ensures l in Levels(filtered) {
      var x :| x in df && x.masteryLevel == l;
      assert x in filtered;
    }
  }

  /** One value of the first analysis is the percentage of won matches
      among all the table's rows at that level, so it lies in [0, 100]. */
  lemma WinRateByMasteryShareAt(df: seq<Record>, lo: int, hi: int, i: nat)
    requires AllWellFormed(df)
    ensures i < |WinRateByMastery(df, lo, hi)| ==>
      var grp := WinRateByMastery(df, lo, hi)[i];
      var at := Where(df, LevelIs(grp.key));
      && |at| > 0
      && grp.value == 100.0 * ((WinCount(at) as real) / (|at| as real))
      && 0.0 <= grp.value <= 100.0
  {
    if i < |WinRateByMastery(df, lo, hi)| {
      var grp := WinRateByMastery(df, lo, hi)[i];
      var at := Where(df, LevelIs(grp.key));
      assert |Column(at, WinNumeric)| > 0;
      forall j | 0 <= j < |at| ensures WellFormed(at[j]) {
        assert at[j] in at;
      }
      WinMeanIsShare(at);
    }
  }

  /** Every value of the first analysis is a share of won matches in
      percent. */
  lemma WinRateByMasteryValues(df: seq<Record>, lo: int, hi: int)
    requires AllWellFormed(df)
    ensures forall i :: 0 <= i < |WinRateByMastery(df, lo, hi)| ==>
      var grp := WinRateByMastery(df, lo, hi)[i];
      var at := Where(df, LevelIs(grp.key));
      && |at| > 0
      && grp.value == 100.0 * ((WinCount(at) as real) / (|at| as real))
      && 0.0 <= grp.value <= 100.0
  {
    forall i | 0 <= i < |WinRateByMastery(df, lo, hi)|
      ensures var grp := WinRateByMastery(df, lo, hi)[i];
        var at := Where(df, LevelIs(grp.key));
        && |at| > 0
        && grp.value == 100.0 * ((WinCount(at) as real) / (|at| as real))
        && 0.0 <= grp.value <= 100.0
    {
      WinRateByMasteryShareAt(df, lo, hi, i);
    }
  }

  /** Second analysis: mean match duration in minutes per tier, over the
      selected tiers, one row per tier category. */
  function DurationByTier(df: seq<Record>, selected: set<Tier>): (d: seq<TierMean>)
    ensures |d| == |TierOrder|
    ensures forall i, j :: 0 <= i < j < |d| ==> Below(d[i].tier, d[j].tier)
    ensures forall t: Tier :: d[Index(t)].tier == t
    ensures forall t: Tier ::
      d[Index(t)].mean == (if t in selected then MeanOf(TierRows(df, t), DurationMinutes) else None)
  {
    var filtered := FilterTiers(df, selected);
    var g := GroupMeanByTier(filtered, DurationMinutes);
    assert forall t: Tier ::
      g[Index(t)].mean == (if t in selected then MeanOf(TierRows(df, t), DurationMinutes) else None) by {
      forall t: Tier
        ensures g[Index(t)].mean == if t in selected then MeanOf(TierRows(df, t), DurationMinutes) else None
      {
        if t in selected {
          SelectedTierRows(df, selected, t);
        } else {
          assert t !in TiersPresent(filtered);
        }
      }
    }
    g
  }

  /** Selecting a set of tiers leaves the rows of each selected tier as
      they were. */
  lemma SelectedTierRows(df: seq<Record>, selected: set<Tier>, t: Tier)
    requires t in selected
    ensures TierRows(FilterTiers(df, selected), t) == TierRows(df, t)
  {
    WhereAnd(df, TierIn(selected), TierIs(t));
    WhereCongruent(df, And(TierIn(selected), TierIs(t)), TierIs(t));
  }

  /** With no tier selected, the second analysis has no group with a
      value. */
  lemma DurationByTierEmptySelection(df: seq<Record>, selected: set<Tier>)
    ensures selected == {} ==> Observed(DurationByTier(df, selected)) == []
  {
    var g := DurationByTier(df, selected);
    if selected == {} {
      TierOrderIsStrict();
      forall i | 0 <= i < |g| ensures g[i].mean.None? {
        assert g[i] == g[Index(TierOrder[i])];
      }
      ObservedEmpty(g);
    }
  }

  /** Third analysis: win rate in percent per tier, over the selected tiers
      and the slider range, one row per tier category. */
  function WinRateByTier(df: seq<Record>, selected: set<Tier>, lo: int, hi: int): (w: seq<TierMean>)
    ensures |w| == |TierOrder|
    ensures forall i, j :: 0 <= i < j < |w| ==> Below(w[i].tier, w[j].tier)
    ensures forall t: Tier :: w[Index(t)].tier == t
    ensures forall t: Tier :: w[Index(t)].mean.Some? <==>
      t in selected && t in TiersPresent(FilterMasteryRange(df, lo, hi))
    ensures forall t: Tier :: t in selected ==>
      var inRange := MeanOf(TierRows(FilterMasteryRange(df, lo, hi), t), WinNumeric);
      w[Index(t)].mean == (if inRange.Some? then Some(Percent(inRange.value)) else None)
  {
    var g := GroupMeanByTier(FilterTierAndRange(df, selected, lo, hi), WinNumeric);
    TierAndRangeGroups(df, selected, lo, hi);
    var w := PercentTiers(g);
    forall t: Tier
      ensures w[Index(t)].mean.Some? == g[Index(t)].mean.Some?
      ensures t in selected ==>
        var inRange := MeanOf(TierRows(FilterMasteryRange(df, lo, hi), t), WinNumeric);
        w[Index(t)].mean == (if inRange.Some? then Some(Percent(inRange.value)) else None)
    {
      var i := Index(t);
      assert w[i].mean == (if g[i].mean.Some? then Some(Percent(g[i].mean.value)) else None);
      if t in selected {
        var inRange := MeanOf(TierRows(FilterMasteryRange(df, lo, hi), t), WinNumeric);
        assert g[i].mean == inRange;
      }
    }
    w
  }

  /** The per-tier means behind the third analysis: a tier has a mean
      exactly when it is selected and has a row in the range, and then it is
      the mean over the tier's rows in the range. */
  lemma TierAndRangeGroups(df: seq<Record>, selected: set<Tier>, lo: int, hi: int)
    ensures var g := GroupMeanByTier(FilterTierAndRange(df, selected, lo, hi), WinNumeric);
      forall t: Tier ::
        && (g[Index(t)].mean.Some? <==> t in selected && t in TiersPresent(FilterMasteryRange(df, lo, hi)))
        && (t in selected ==> g[Index(t)].mean == MeanOf(TierRows(FilterMasteryRange(df, lo, hi), t), WinNumeric))
  {
    var ranged := FilterMasteryRange(df, lo, hi);
    var filtered := FilterTierAndRange(df, selected, lo, hi);
    var g := GroupMeanByTier(filtered, WinNumeric);
    forall t: Tier
      ensures g[Index(t)].mean.Some? <==> t in selected && t in TiersPresent(ranged)
      ensures t in selected ==> g[Index(t)].mean == MeanOf(TierRows(ranged, t), WinNumeric)
    {
      if t in selected {
        SelectedTierRows(ranged, selected, t);
      }
      if t in selected && t in TiersPresent(ranged) {
        var x :| x in ranged && x.tier.Some? && x.tier.value == t;
        assert x in filtered;
      }
    }
  }

  /** Every value of the third analysis is a percentage in [0, 100]: the
      share of won matches among the tier's rows in the range. */
  lemma WinRateByTierBounds(df: seq<Record>, selected: set<Tier>, lo: int, hi: int)
    requires AllWellFormed(df)
    ensures forall i ::
      (0 <= i < |WinRateByTier(df, selected, lo, hi)| && WinRateByTier(df, selected, lo, hi)[i].mean.Some?) ==>
      0.0 <= WinRateByTier(df, selected, lo, hi)[i].mean.value <= 100.0
  {
    var filtered := FilterTierAndRange(df, selected, lo, hi);
    var means := GroupMeanByTier(filtered, WinNumeric);
    var g := WinRateByTier(df, selected, lo, hi);
    forall i | 0 <= i < |g| && g[i].mean.Some?
      ensures 0.0 <= g[i].mean.value <= 100.0
    {
      var rows := TierRows(filtered, means[i].tier);
      assert g[i].mean == (if means[i].mean.Some? then Some(Percent(means[i].mean.value)) else None);
      assert means[i].mean == Mean(Column(rows, WinNumeric));
      assert |rows| > 0 by {
        assert |Column(rows, WinNumeric)| > 0;
      }
      forall j | 0 <= j < |rows| ensures WellFormed(rows[j]) {
        assert rows[j] in rows && rows[j] in filtered && rows[j] in df;
      }
      WinMeanIsShare(rows);
    }
  }

  /** Headline duration for one selected tier: the mean match length in
      minutes over that tier's rows, or 0 when the tier has no rows. */
  function HeadlineDuration(df: seq<Record>, t: Tier): (avg: real)
    ensures |TierRows(df, t)| == 0 ==> avg == 0.0
    ensures |TierRows(df, t)| > 0 ==>
      avg * (|TierRows(df, t)| as real) == Sum(Column(TierRows(df, t), DurationMinutes))
  {
    var rows := TierRows(df, t);
    if |rows| == 0 then 0.0
    else
      var col := Column(rows, DurationMinutes);
      assert Mean(col).value * (|col| as real) == Sum(col);
      Mean(col).value
  }

  /** The headline figure agrees with the second analysis over all tiers:
      it is that analysis' value for the tier, with 0 in place of a missing
      mean. */
  lemma HeadlineMatchesTrend(df: seq<Record>, t: Tier)
    ensures HeadlineDuration(df, t) == DurationByTier(df, AllTiers)[Index(t)].mean.GetOr(0.0)
  {
    assert t in AllTiers by {
      assert TierOrder[Index(t)] == t;
    }
  }

  /** Headline win rate over an already selected slice of the table: the
      percentage of won matches, or 0 for an empty slice. */
  function HeadlineWinRate(slice: seq<Record>): (rate: real)
    ensures |slice| == 0 ==> rate == 0.0
    ensures AllWellFormed(slice) && |slice| > 0 ==>
      rate == 100.0 * ((WinCount(slice) as real) / (|slice| as real))
    ensures AllWellFormed(slice) ==> 0.0 <= rate <= 100.0
  {
    if |slice| == 0 then 0.0
    else
      var share := MeanOf(slice, WinNumeric).value;
      assert AllWellFormed(slice) ==>
        share == (WinCount(slice) as real) / (|slice| as real) && 0.0 <= share <= 1.0 by {
        if AllWellFormed(slice) {
          assert forall i :: 0 <= i < |slice| ==> slice[i] in slice;
          WinMeanIsShare(slice);
        }
      }
      Percent(share)
  }
}
