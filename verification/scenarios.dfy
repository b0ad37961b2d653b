/** Two worked cases of the dashboard pipeline on small literal tables. */
module Scenarios {
  import opened Maybe
  import opened Tiers
  import opened Stats
  import opened Records
  import opened Filters
  import opened Grouping
  import opened Dashboard

  /** Three matches: a won GOLD match at level 15, a lost GOLD match at
      level 25 and a won SILVER match at level 5. */
  const Matches: seq<RawRecord> := [
    RawRecord(true, 1800.0, 15, "GOLD"),
    RawRecord(false, 2400.0, 25, "GOLD"),
    RawRecord(true, 1500.0, 5, "SILVER")
  ]

  /** With the slider at [10, 30] and every tier selected, the third
      analysis shows GOLD at 50 percent and nothing for SILVER, whose only
      match lies outside the range. */
  lemma RangeScenario()
    ensures WinRateByTier(Derive(Matches), AllTiers, 10, 30)[Index(Gold)].mean == Some(50.0)
    ensures WinRateByTier(Derive(Matches), AllTiers, 10, 30)[Index(Silver)].mean.None?
  {
    var df := Derive(Matches);
    var r0, r1 := df[0], df[1];
    MatchesDerived();
    TierOrderIsStrict();
    PairOfOneTier(r0, r1, Gold, Silver);
    OneWinOneLoss(r0, r1);
    assert Percent(0.5) == 50.0;
  }

  /** The three matches after derivation, and the two the slider keeps. */
  lemma MatchesDerived()
    ensures |Derive(Matches)| == 3
    ensures Derive(Matches)[0].tier == Some(Gold) && Derive(Matches)[0].win
    ensures Derive(Matches)[1].tier == Some(Gold) && !Derive(Matches)[1].win
    ensures WellFormed(Derive(Matches)[0]) && WellFormed(Derive(Matches)[1])
    ensures FilterMasteryRange(Derive(Matches), 10, 30) == [Derive(Matches)[0], Derive(Matches)[1]]
  {
    var df := Derive(Matches);
    var r0, r1, r2 := DeriveRow(Matches[0]), DeriveRow(Matches[1]), DeriveRow(Matches[2]);
    assert df == [r0, r1, r2];
    assert r0.tier == Some(Gold) && r1.tier == Some(Gold);
    assert FilterMasteryRange(df, 10, 30) == [r0, r1];
  }

  /** Two rows of one tier: filtering them by that tier keeps both, by
      another tier keeps neither. */
  lemma PairOfOneTier(r0: Record, r1: Record, t: Tier, u: Tier)
    requires r0.tier == Some(t) && r1.tier == Some(t) && u != t
    ensures TierRows([r0, r1], t) == [r0, r1]
    ensures TierRows([r0, r1], u) == []
  {
    assert [r0, r1][..1] == [r0] && [r0][..0] == [];
    assert Where([r0], TierIs(t)) == [r0];
    assert Where([r0], TierIs(u)) == [];
  }

  /** One won and one lost match average to a win share of one half. */
  lemma OneWinOneLoss(r0: Record, r1: Record)
    requires WellFormed(r0) && WellFormed(r1) && r0.win && !r1.win
    ensures MeanOf([r0, r1], WinNumeric) == Some(0.5)
  {
    var col := Column([r0, r1], WinNumeric);
    assert col == [1.0, 0.0];
    assert col[..1] == [1.0] && [1.0][..0] == [];
    assert Sum(col) == 1.0;
  }

  /** A match of the given tier; the other columns do not matter here. */
  function MatchAt(t: Tier): Record {
    Record(true, 1200.0, 1, Some(t), 1, 20.0)
  }

  /** Rows tagged BRONZE, GOLD, BRONZE, SILVER in that order group as
      BRONZE, SILVER, GOLD: category order, not the order of the rows. */
  lemma OrderScenario(m: Metric)
    ensures KeySeq(TierGroups(MixedRows, m)) == [Bronze, Silver, Gold]
  {
    TierGroupsInCategoryOrder(MixedRows, m);
    MixedRowsTiers();
    LowTiersInOrder();
  }

  /** Four matches tagged BRONZE, GOLD, BRONZE, SILVER, in that order. */
  const MixedRows: seq<Record> := [MatchAt(Bronze), MatchAt(Gold), MatchAt(Bronze), MatchAt(Silver)]

  /** The tiers present among those four matches. */
  lemma MixedRowsTiers()
    ensures TiersPresent(MixedRows) == {Bronze, Silver, Gold}
  {
    var rows := MixedRows;
    assert rows[0] in rows && rows[1] in rows && rows[3] in rows;
    forall x | x in rows ensures x.tier.Some? && x.tier.value in {Bronze, Silver, Gold} {
      var i :| 0 <= i < |rows| && rows[i] == x;
    }
  }

  /** Listing BRONZE, SILVER and GOLD in category order. */
  lemma LowTiersInOrder()
    ensures SelectIn(TierOrder, {Bronze, Silver, Gold}) == [Bronze, Silver, Gold]
  {
    var s := {Bronze, Silver, Gold};
    SelectInTierOrder(s);
    AscendingUnique(SelectIn(TierOrder, s), [Bronze, Silver, Gold]);
  }
}
