/** Grouped means, as `groupby(key)[column].mean()` computes them
    (Streamlit/app.py lines 76, 101 and 145). */
module Grouping {
  import opened Maybe
  import opened Tiers
  import opened Stats
  import opened Records
  import opened Filters

  /** One output row of a grouping by the tier category: the mean is missing
      (pandas' NaN) when no row falls in that tier. */
  datatype TierMean = TierMean(tier: Tier, mean: Option<real>)

  /** One group that has rows, with its key and aggregated value. */
  datatype Group<K> = Group(key: K, value: real)

  /** The tiers that occur in a table; rows with a missing tier add none. */
  function TiersPresent(rows: seq<Record>): set<Tier> {
    set x | x in rows && x.tier.Some? :: x.tier.value
  }

  /** The keys of a list of groups. */
  function Keys<K>(gs: seq<Group<K>>): set<K> {
    set k | 0 <= k < |gs| :: gs[k].key
  }

  /** The rows of one tier. */
  function TierRows(rows: seq<Record>, t: Tier): seq<Record> {
    Where(rows, TierIs(t))
  }

  /** A tier's group has rows exactly when the tier occurs in the table. */
  lemma TierRowsPresent(rows: seq<Record>)
    ensures forall t :: |TierRows(rows, t)| > 0 <==> t in TiersPresent(rows)
  {
    forall t ensures |TierRows(rows, t)| > 0 <==> t in TiersPresent(rows) {
      if t in TiersPresent(rows) {
        var x :| x in rows && x.tier.Some? && x.tier.value == t;
        assert x in TierRows(rows, t);
      }
      if |TierRows(rows, t)| > 0 {
        assert TierRows(rows, t)[0] in rows;
      }
    }
  }

  /** Grouping by the ordered tier category: one output row per category,
      in category order, whether or not any row has that tier. Rows whose
      tier is missing belong to no group. */
  function GroupMeanByTier(rows: seq<Record>, m: Metric): (g: seq<TierMean>)
    ensures |g| == |TierOrder|
    ensures forall t: Tier :: g[Index(t)].tier == t
    ensures forall i, j :: 0 <= i < j < |g| ==> Below(g[i].tier, g[j].tier)
    ensures forall i :: 0 <= i < |g| ==> (g[i].mean.Some? <==> g[i].tier in TiersPresent(rows))
    ensures forall i :: 0 <= i < |g| ==> g[i].mean == MeanOf(TierRows(rows, g[i].tier), m)
  {
    TierOrderIsStrict();
    TierRowsPresent(rows);
    seq(|TierOrder|, i requires 0 <= i < |TierOrder| =>
      TierMean(TierOrder[i], MeanOf(TierRows(rows, TierOrder[i]), m)))
  }

  /** The groups that have rows, in the order of `g`. */
  function Observed(g: seq<TierMean>): (obs: seq<Group<Tier>>)
    ensures |obs| <= |g|
  {
    if |g| == 0 then []
    else
      var n := |g| - 1;
      var prefix := Observed(g[..n]);
      if g[n].mean.Some? then prefix + [Group(g[n].tier, g[n].mean.value)] else prefix
  }

  /** With no value in any group, nothing is kept. */
  lemma {:induction false} ObservedEmpty(g: seq<TierMean>)
    requires forall i :: 0 <= i < |g| ==> g[i].mean.None?
    ensures Observed(g) == []
  {
    if |g| > 0 {
      ObservedEmpty(g[..|g| - 1]);
    }
  }

  /** Every group kept by `Observed` is a non-empty group of `g`. */
  lemma {:induction false} ObservedSources(g: seq<TierMean>)
    ensures forall k :: 0 <= k < |Observed(g)| ==>
      exists i :: 0 <= i < |g| && g[i].tier == Observed(g)[k].key && g[i].mean == Some(Observed(g)[k].value)
  {
    if |g| > 0 {
      var n := |g| - 1;
      var pre := g[..n];
      ObservedSources(pre);
      var prefix := Observed(pre);
      var obs := Observed(g);
      assert obs == if g[n].mean.Some? then prefix + [Group(g[n].tier, g[n].mean.value)] else prefix;
      forall k | 0 <= k < |obs|
        ensures exists i :: 0 <= i < |g| && g[i].tier == obs[k].key && g[i].mean == Some(obs[k].value)
      {
        if k < |prefix| {
          assert obs[k] == prefix[k];
          var i :| 0 <= i < |pre| && pre[i].tier == prefix[k].key && pre[i].mean == Some(prefix[k].value);
          assert g[i] == pre[i];
        } else {
          assert g[n].tier == obs[k].key && g[n].mean == Some(obs[k].value);
        }
      }
    } else {
      assert Observed(g) == [];
    }
  }

  /** Every non-empty group of `g` is kept by `Observed`, with its value. */
  lemma {:induction false} ObservedComplete(g: seq<TierMean>)
    ensures forall i :: 0 <= i < |g| && g[i].mean.Some? ==> Group(g[i].tier, g[i].mean.value) in Observed(g)
  {
    if |g| > 0 {
      var n := |g| - 1;
      var pre := g[..n];
      ObservedComplete(pre);
      var prefix := Observed(pre);
      var obs := Observed(g);
      assert obs == if g[n].mean.Some? then prefix + [Group(g[n].tier, g[n].mean.value)] else prefix;
      forall i | 0 <= i < |g| && g[i].mean.Some?
        ensures Group(g[i].tier, g[i].mean.value) in obs
      {
        if i < n {
          assert pre[i] == g[i];
        }
      }
    }
  }

  /** `Observed` keeps the groups in their relative order: when `g` is in
      strictly ascending tier order, so is the result. */
  lemma {:induction false} ObservedOrdered(g: seq<TierMean>)
    requires forall i, j :: 0 <= i < j < |g| ==> Below(g[i].tier, g[j].tier)
    ensures forall k, l :: 0 <= k < l < |Observed(g)| ==> Below(Observed(g)[k].key, Observed(g)[l].key)
  {
    if |g| > 0 {
      var n := |g| - 1;
      var pre := g[..n];
      ObservedOrdered(pre);
      ObservedSources(pre);
      var prefix := Observed(pre);
      var obs := Observed(g);
      assert obs == if g[n].mean.Some? then prefix + [Group(g[n].tier, g[n].mean.value)] else prefix;
      forall k, l | 0 <= k < l < |obs|
        ensures Below(obs[k].key, obs[l].key)
      {
        if l < |prefix| {
          assert obs[k] == prefix[k] && obs[l] == prefix[l];
        } else {
          assert obs[k] == prefix[k];
          var i :| 0 <= i < |pre| && pre[i].tier == prefix[k].key && pre[i].mean == Some(prefix[k].value);
          assert pre[i] == g[i];
          assert obs[l].key == g[n].tier;
        }
      }
    }
  }

  /** The keys of a list of groups, in list order. */
  function KeySeq<K>(gs: seq<Group<K>>): (ks: seq<K>)
    ensures |ks| == |gs|
    ensures forall i :: 0 <= i < |gs| ==> ks[i] == gs[i].key
  {
    seq(|gs|, i requires 0 <= i < |gs| => gs[i].key)
  }

  /** The tiers of a list of per-tier results, in list order. */
  function TierSeq(g: seq<TierMean>): (ts: seq<Tier>)
    ensures |ts| == |g|
    ensures forall i :: 0 <= i < |g| ==> ts[i] == g[i].tier
  {
    seq(|g|, i requires 0 <= i < |g| => g[i].tier)
  }

  /** The members of `s` in the order in which `order` lists them: an
      independent account of which tiers a grouping shows and where. */
  function SelectIn(order: seq<Tier>, s: set<Tier>): seq<Tier> {
    if |order| == 0 then []
    else
      var n := |order| - 1;
      SelectIn(order[..n], s) + (if order[n] in s then [order[n]] else [])
  }

  /** `SelectIn` keeps exactly the listed tiers that belong to `s`. */
  lemma {:induction false} SelectInMembers(order: seq<Tier>, s: set<Tier>)
    ensures forall t :: t in SelectIn(order, s) <==> t in order && t in s
  {
    if |order| > 0 {
      var n := |order| - 1;
      SelectInMembers(order[..n], s);
      assert order == order[..n] + [order[n]];
    }
  }

  /** `SelectIn` keeps the relative order of the list it selects from. */
  lemma {:induction false} SelectInAscending(order: seq<Tier>, s: set<Tier>)
    requires Ascending(order)
    ensures Ascending(SelectIn(order, s))
  {
    if |order| > 0 {
      var n := |order| - 1;
      var pre := SelectIn(order[..n], s);
      SelectInAscending(order[..n], s);
      SelectInMembers(order[..n], s);
      if order[n] in s {
        var r := pre + [order[n]];
        forall i, j | 0 <= i < j < |r| ensures Below(r[i], r[j]) {
          if j == |pre| {
            assert r[i] == pre[i] && pre[i] in pre;
            var k :| 0 <= k < n && order[..n][k] == pre[i];
          }
        }
      }
    }
  }

  /** Listing a set of tiers in category order gives exactly its members,
      lowest tier first. */
  lemma SelectInTierOrder(s: set<Tier>)
    ensures forall t :: t in SelectIn(TierOrder, s) <==> t in s
    ensures Ascending(SelectIn(TierOrder, s))
  {
    TierOrderIsStrict();
    SelectInMembers(TierOrder, s);
    SelectInAscending(TierOrder, s);
  }

  /** When a group has a value exactly for the tiers of `s`, `Observed`
      keeps the tiers of `s` in the order of `g`. */
  lemma {:induction false} ObservedKeys(g: seq<TierMean>, s: set<Tier>)
    requires forall i :: 0 <= i < |g| ==> (g[i].mean.Some? <==> g[i].tier in s)
    ensures KeySeq(Observed(g)) == SelectIn(TierSeq(g), s)
  {
    if |g| > 0 {
      var n := |g| - 1;
      var pre := g[..n];
      ObservedKeys(pre, s);
      var prefix := Observed(pre);
      assert TierSeq(g)[..n] == TierSeq(pre);
      if g[n].mean.Some? {
        var last := Group(g[n].tier, g[n].mean.value);
        assert Observed(g) == prefix + [last];
        assert KeySeq(prefix + [last]) == KeySeq(prefix) + [last.key];
      } else {
        assert Observed(g) == prefix;
      }
    } else {
      assert Observed(g) == [];
    }
  }

  /** Grouping by tier and keeping only the tiers that have rows: the groups
      come out in category order, exactly the tiers present in the table,
      each with the mean over that tier's rows. */
  function TierGroups(rows: seq<Record>, m: Metric): (obs: seq<Group<Tier>>)
    ensures forall k, l :: 0 <= k < l < |obs| ==> Below(obs[k].key, obs[l].key)
    ensures Keys(obs) == TiersPresent(rows)
    ensures forall k :: 0 <= k < |obs| ==> MeanOf(TierRows(rows, obs[k].key), m) == Some(obs[k].value)
  {
    ObservedGroupsOrdered(rows, m);
    ObservedGroupsKeys(rows, m);
    ObservedGroupsMeans(rows, m);
    Observed(GroupMeanByTier(rows, m))
  }

  /** The non-empty tier groups are in category order. */
  lemma ObservedGroupsOrdered(rows: seq<Record>, m: Metric)
    ensures var obs := Observed(GroupMeanByTier(rows, m));
      forall k, l :: 0 <= k < l < |obs| ==> Below(obs[k].key, obs[l].key)
  {
    ObservedOrdered(GroupMeanByTier(rows, m));
  }

  /** The non-empty tier groups are exactly the tiers present. */
  lemma ObservedGroupsKeys(rows: seq<Record>, m: Metric)
    ensures Keys(Observed(GroupMeanByTier(rows, m))) == TiersPresent(rows)
  {
    var g := GroupMeanByTier(rows, m);
    var obs := Observed(g);
    ObservedSources(g);
    ObservedComplete(g);
    forall t | t in TiersPresent(rows) ensures t in Keys(obs) {
      assert g[Index(t)].tier == t;
      var j :| 0 <= j < |obs| && obs[j] == Group(t, g[Index(t)].mean.value);
    }
    forall t | t in Keys(obs) ensures t in TiersPresent(rows) {
      var k :| 0 <= k < |obs| && obs[k].key == t;
      var i :| 0 <= i < |g| && g[i].tier == obs[k].key && g[i].mean == Some(obs[k].value);
    }
  }

  /** Each non-empty tier group holds its tier's mean. */
  lemma ObservedGroupsMeans(rows: seq<Record>, m: Metric)
    ensures var obs := Observed(GroupMeanByTier(rows, m));
      forall k :: 0 <= k < |obs| ==> MeanOf(TierRows(rows, obs[k].key), m) == Some(obs[k].value)
  {
    var g := GroupMeanByTier(rows, m);
    var obs := Observed(g);
    ObservedSources(g);
    forall k | 0 <= k < |obs| ensures MeanOf(TierRows(rows, obs[k].key), m) == Some(obs[k].value) {
      var i :| 0 <= i < |g| && g[i].tier == obs[k].key && g[i].mean == Some(obs[k].value);
    }
  }

  /** The tier groups are exactly the tiers present in the rows, listed in
      category order whatever the order of the rows. */
  lemma TierGroupsInCategoryOrder(rows: seq<Record>, m: Metric)
    ensures KeySeq(TierGroups(rows, m)) == SelectIn(TierOrder, TiersPresent(rows))
  {
    var g := GroupMeanByTier(rows, m);
    ObservedKeys(g, TiersPresent(rows));
    assert TierSeq(g) == TierOrder;
  }

  /** Running totals of one tier's group: the sum of the metric and the
      number of rows. */
  function TierSum(rows: seq<Record>, t: Tier, m: Metric): real {
    Sum(Column(TierRows(rows, t), m))
  }

  function TierCount(rows: seq<Record>, t: Tier): nat {
    |TierRows(rows, t)|
  }

  /** One more row moves only the totals of its own tier. */
  lemma TotalsSnoc(rows: seq<Record>, r: Record, t: Tier, m: Metric)
    ensures TierSum(rows + [r], t, m) == TierSum(rows, t, m) + (if r.tier == Some(t) then Value(r, m) else 0.0)
    ensures TierCount(rows + [r], t) == TierCount(rows, t) + (if r.tier == Some(t) then 1 else 0)
  {
    WhereSnoc(rows, r, TierIs(t));
    if r.tier == Some(t) {
      SumColumnAppend(TierRows(rows, t), r, m);
    }
  }

  /** A group's mean is its sum over its count, missing for no rows. */
  lemma MeanFromTotals(rows: seq<Record>, t: Tier, m: Metric)
    ensures MeanOf(TierRows(rows, t), m)
      == if TierCount(rows, t) == 0 then None
         else Some(TierSum(rows, t, m) / (TierCount(rows, t) as real))
  {
  }

  /** `sums` and `counts` hold, position by position in category order,
      the totals of each tier's group of `rows`. */
  predicate TotalsOf(rows: seq<Record>, m: Metric, sums: seq<real>, counts: seq<nat>) {
    && |sums| == |TierOrder| && |counts| == |TierOrder|
    && forall k :: 0 <= k < |TierOrder| ==>
      sums[k] == TierSum(rows, TierOrder[k], m) && counts[k] == TierCount(rows, TierOrder[k])
  }

  /** Adding one row to the bucket of its tier keeps the totals right. */
  lemma BucketStep(rows: seq<Record>, r: Record, m: Metric, sums: seq<real>, counts: seq<nat>)
    requires TotalsOf(rows, m, sums, counts)
    ensures r.tier.None? ==> TotalsOf(rows + [r], m, sums, counts)
    ensures r.tier.Some? ==>
      var k := Index(r.tier.value);
      TotalsOf(rows + [r], m, sums[k := sums[k] + Value(r, m)], counts[k := counts[k] + 1])
  {
    TierOrderIsStrict();
    var sums', counts' := sums, counts;
    if r.tier.Some? {
      var k := Index(r.tier.value);
      sums' := sums[k := sums[k] + Value(r, m)];
      counts' := counts[k := counts[k] + 1];
    }
    forall j | 0 <= j < |TierOrder|
      ensures sums'[j] == TierSum(rows + [r], TierOrder[j], m)
      ensures counts'[j] == TierCount(rows + [r], TierOrder[j])
    {
      TotalsSnoc(rows, r, TierOrder[j], m);
      if r.tier == Some(TierOrder[j]) {
        assert Index(r.tier.value) == j;
      } else {
        assert sums'[j] == sums[j] && counts'[j] == counts[j];
      }
    }
  }

  /** Before any row, every bucket is empty. */
  lemma TotalsOfNoRows(m: Metric)
    ensures TotalsOf([], m, seq(|TierOrder|, _ => 0.0), seq(|TierOrder|, _ => 0))
  {
    forall t: Tier ensures TierRows([], t) == [] {
    }
  }

  /** One step of the pass: the row's value and a count of one go to the
      bucket of its tier; a row with a missing tier changes nothing. */
  method AddToBucket(ghost rows: seq<Record>, r: Record, m: Metric, sums: seq<real>, counts: seq<nat>)
    returns (sums': seq<real>, counts': seq<nat>)
    requires TotalsOf(rows, m, sums, counts)
    ensures TotalsOf(rows + [r], m, sums', counts')
  {
    BucketStep(rows, r, m, sums, counts);
    if r.tier.Some? {
      var k := Index(r.tier.value);
      sums' := sums[k := sums[k] + Value(r, m)];
      counts' := counts[k := counts[k] + 1];
    } else {
      sums', counts' := sums, counts;
    }
  }

  /** Per-tier sums and counts accumulated in one pass over the rows, each
      row going to the bucket of its tier and rows with a missing tier to
      none. */
  method TierTotals(rows: seq<Record>, m: Metric) returns (sums: seq<real>, counts: seq<nat>)
    ensures |sums| == |TierOrder| && |counts| == |TierOrder|
    ensures forall k :: 0 <= k < |TierOrder| ==>
      sums[k] == TierSum(rows, TierOrder[k], m) && counts[k] == TierCount(rows, TierOrder[k])
  {
    sums := seq(|TierOrder|, _ => 0.0);
    counts := seq(|TierOrder|, _ => 0);
    TotalsOfNoRows(m);
    assert rows[..0] == [];
    var i := 0;
    while i < |rows|
      invariant 0 <= i <= |rows|
      invariant TotalsOf(rows[..i], m, sums, counts)
    {
      assert rows[..i + 1] == rows[..i] + [rows[i]];
      sums, counts := AddToBucket(rows[..i], rows[i], m, sums, counts);
      i := i + 1;
    }
    assert rows[..i] == rows;
    assert TotalsOf(rows, m, sums, counts);
  }

  /** The tier grouping computed as pandas does it: one pass of per-tier
      totals, then a sum over a count for each category. */
  method GroupMeanByTierOnePass(rows: seq<Record>, m: Metric) returns (g: seq<TierMean>)
    ensures g == GroupMeanByTier(rows, m)
  {
    var sums, counts := TierTotals(rows, m);
    g := seq(|TierOrder|, k requires 0 <= k < |TierOrder| =>
      TierMean(TierOrder[k], if counts[k] == 0 then None else Some(sums[k] / (counts[k] as real))));
    forall k | 0 <= k < |TierOrder|
      ensures g[k] == GroupMeanByTier(rows, m)[k]
    {
      MeanFromTotals(rows, TierOrder[k], m);
    }
  }

  /** The lowest mastery level in a non-empty table. */
  function MinLevel(rows: seq<Record>): (k: int)
    requires |rows| > 0
    ensures exists i :: 0 <= i < |rows| && rows[i].masteryLevel == k
    ensures forall i :: 0 <= i < |rows| ==> k <= rows[i].masteryLevel
  {
    if |rows| == 1 then rows[0].masteryLevel
    else
      var k := MinLevel(rows[..|rows| - 1]);
      var last := rows[|rows| - 1].masteryLevel;
      if last < k then last else k
  }

  /** The highest mastery level in a non-empty table. */
  function MaxLevel(rows: seq<Record>): (k: int)
    requires |rows| > 0
    ensures exists i :: 0 <= i < |rows| && rows[i].masteryLevel == k
    ensures forall i :: 0 <= i < |rows| ==> rows[i].masteryLevel <= k
  {
    if |rows| == 1 then rows[0].masteryLevel
    else
      var k := MaxLevel(rows[..|rows| - 1]);
      var last := rows[|rows| - 1].masteryLevel;
      if last > k then last else k
  }

  /** Removing one level's rows leaves the other levels' groups unchanged. */
  lemma OtherLevelsUnchanged(rows: seq<Record>, k: int, other: int)
    requires other != k
    ensures Where(Where(rows, Not(LevelIs(k))), LevelIs(other)) == Where(rows, LevelIs(other))
  {
    WhereAnd(rows, Not(LevelIs(k)), LevelIs(other));
    forall x | x in rows
      ensures Holds(And(Not(LevelIs(k)), LevelIs(other)), x) <==> Holds(LevelIs(other), x)
    {
      assert Holds(LevelIs(other), x) == (x.masteryLevel == other);
      assert Holds(LevelIs(k), x) == (x.masteryLevel == k);
    }
    WhereCongruent(rows, And(Not(LevelIs(k)), LevelIs(other)), LevelIs(other));
  }

  /** The mastery levels that occur in a table. */
  function Levels(rows: seq<Record>): set<int> {
    set x | x in rows :: x.masteryLevel
  }

  /** Taking out the rows at the lowest level leaves a strictly smaller
      table whose levels are the remaining ones, all above it. */
  lemma SplitAtMinLevel(rows: seq<Record>)
    requires |rows| > 0
    ensures |Where(rows, LevelIs(MinLevel(rows)))| > 0
    ensures |Where(rows, Not(LevelIs(MinLevel(rows))))| < |rows|
    ensures Levels(Where(rows, Not(LevelIs(MinLevel(rows))))) == Levels(rows) - {MinLevel(rows)}
    ensures forall l :: l in Levels(Where(rows, Not(LevelIs(MinLevel(rows))))) ==> l > MinLevel(rows)
  {
    var k := MinLevel(rows);
    var i :| 0 <= i < |rows| && rows[i].masteryLevel == k;
    assert rows[i] in rows && !Holds(Not(LevelIs(k)), rows[i]);
    assert rows[i] in Where(rows, LevelIs(k));
    WhereDrops(rows, Not(LevelIs(k)), rows[i]);
    RemainingLevels(rows, k);
  }

  /** Taking out the rows at the lowest level leaves exactly the other
      levels. */
  lemma RemainingLevels(rows: seq<Record>, k: int)
    requires forall x :: x in rows ==> k <= x.masteryLevel
    ensures Levels(Where(rows, Not(LevelIs(k)))) == Levels(rows) - {k}
    ensures forall l :: l in Levels(Where(rows, Not(LevelIs(k)))) ==> l > k
  {
    var rest := Where(rows, Not(LevelIs(k)));
    forall l | l in Levels(rest) ensures l in Levels(rows) - {k} && l > k {
      var x :| x in rest && x.masteryLevel == l;
      assert x in rows && Holds(Not(LevelIs(k)), x);
      assert Holds(LevelIs(k), x) == (x.masteryLevel == k);
    }
    forall l | l in Levels(rows) - {k} ensures l in Levels(rest) {
      var x :| x in rows && x.masteryLevel == l;
      assert Holds(LevelIs(k), x) == (x.masteryLevel == k);
      assert x in rest;
    }
  }

  /** Grouping by the integer mastery level, lowest level first: one group
      per level that occurs, holding the mean over that level's rows. */
  function GroupMeanByMastery(rows: seq<Record>, m: Metric): (g: seq<Group<int>>)
    decreases |rows|
    ensures |g| <= |rows|
    ensures Keys(g) == Levels(rows)
    ensures forall i, j :: 0 <= i < j < |g| ==> g[i].key < g[j].key
    ensures forall i :: 0 <= i < |g| ==> MeanOf(Where(rows, LevelIs(g[i].key)), m) == Some(g[i].value)
  {
    if |rows| == 0 then []
    else
      var k := MinLevel(rows);
      SplitAtMinLevel(rows);
      var rest := Where(rows, Not(LevelIs(k)));
      var head := Group(k, MeanOf(Where(rows, LevelIs(k)), m).value);
      var tail := GroupMeanByMastery(rest, m);
      ConsKeys(head, tail);
      ConsAscending(head, tail);
      ConsMeans(rows, m, head, tail);
      [head] + tail
  }

  /** Putting a group in front adds its key to the keys. */
  lemma ConsKeys<K>(head: Group<K>, tail: seq<Group<K>>)
    ensures Keys([head] + tail) == {head.key} + Keys(tail)
  {
    var g := [head] + tail;
    forall l | l in Keys(g) ensures l in {head.key} + Keys(tail) {
      var j :| 0 <= j < |g| && g[j].key == l;
      if j > 0 { assert g[j] == tail[j - 1]; }
    }
    forall l | l in Keys(tail) ensures l in Keys(g) {
      var j :| 0 <= j < |tail| && tail[j].key == l;
      assert g[j + 1] == tail[j];
    }
    assert g[0].key == head.key;
  }

  /** The lowest level's group followed by the groups of the other rows:
      each group holds the mean over its level's rows of the whole table. */
  lemma ConsMeans(rows: seq<Record>, m: Metric, head: Group<int>, tail: seq<Group<int>>)
    requires MeanOf(Where(rows, LevelIs(head.key)), m) == Some(head.value)
    requires forall l :: l in Keys(tail) ==> l != head.key
    requires forall i :: 0 <= i < |tail| ==>
      MeanOf(Where(Where(rows, Not(LevelIs(head.key))), LevelIs(tail[i].key)), m) == Some(tail[i].value)
    ensures forall i :: 0 <= i < |[head] + tail| ==>
      MeanOf(Where(rows, LevelIs(([head] + tail)[i].key)), m) == Some(([head] + tail)[i].value)
  {
    var g := [head] + tail;
    forall i | 0 <= i < |g|
      ensures MeanOf(Where(rows, LevelIs(g[i].key)), m) == Some(g[i].value)
    {
      if i > 0 {
        assert g[i] == tail[i - 1];
        assert tail[i - 1].key in Keys(tail);
        OtherLevelsUnchanged(rows, head.key, g[i].key);
      }
    }
  }

  /** A group whose level lies below every level of an ascending list of
      groups can be put in front of it, and the list stays ascending. */
  lemma ConsAscending(head: Group<int>, tail: seq<Group<int>>)
    requires forall i, j :: 0 <= i < j < |tail| ==> tail[i].key < tail[j].key
    requires forall l :: l in Keys(tail) ==> l > head.key
    ensures forall i, j :: 0 <= i < j < |[head] + tail| ==> ([head] + tail)[i].key < ([head] + tail)[j].key
  {
    var g := [head] + tail;
    forall i, j | 0 <= i < j < |g| ensures g[i].key < g[j].key {
      assert g[j] == tail[j - 1];
      if i == 0 {
        assert tail[j - 1].key in Keys(tail);
      } else {
        assert g[i] == tail[i - 1];
      }
    }
  }
}
