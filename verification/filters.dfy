/** Row selection by boolean masks, as `df[mask]` does it: the rows whose
    mask entry is true, in their original order (Streamlit/app.py lines 68,
    99 and 139-143). */
module Filters {
  import opened Maybe
  import opened Tiers
  import opened Records

  /** A boolean mask over the table, built from column comparisons. */
  datatype Mask =
    | AtLeast(lo: int)              // mastery_level >= lo
    | AtMost(hi: int)               // mastery_level <= hi
    | TierIn(tiers: set<Tier>)      // solo_tier.isin(tiers)
    | TierIs(t: Tier)               // solo_tier == t
    | LevelIs(level: int)           // mastery_level == level
    | Not(inner: Mask)
    | And(left: Mask, right: Mask)  // mask & mask

  /** The mask's entry for one record. A missing tier compares unequal to
      every tier and is in no selection. */
  predicate Holds(m: Mask, r: Record) {
    match m
    case AtLeast(lo) => r.masteryLevel >= lo
    case AtMost(hi) => r.masteryLevel <= hi
    case TierIn(tiers) => r.tier.Some? && r.tier.value in tiers
    case TierIs(t) => r.tier == Some(t)
    case LevelIs(level) => r.masteryLevel == level
    case Not(inner) => !Holds(inner, r)
    case And(left, right) => Holds(left, r) && Holds(right, r)
  }

  /** The mastery slider's mask: both ends inclusive. */
  function MasteryRange(lo: int, hi: int): Mask {
    And(AtLeast(lo), AtMost(hi))
  }

  /** The tier-and-mastery mask of the third analysis. */
  function TierAndRange(tiers: set<Tier>, lo: int, hi: int): Mask {
    And(And(TierIn(tiers), AtLeast(lo)), AtMost(hi))
  }

  /** What the composite masks select, spelled out per column. */
  lemma MaskMeanings(lo: int, hi: int, tiers: set<Tier>)
    ensures forall x :: Holds(MasteryRange(lo, hi), x) <==> lo <= x.masteryLevel <= hi
    ensures forall x :: Holds(TierAndRange(tiers, lo, hi), x) <==>
      x.tier.Some? && x.tier.value in tiers && lo <= x.masteryLevel <= hi
  {
    forall x ensures Holds(TierAndRange(tiers, lo, hi), x) <==>
      x.tier.Some? && x.tier.value in tiers && lo <= x.masteryLevel <= hi
    {
      assert Holds(And(TierIn(tiers), AtLeast(lo)), x) <==> x.tier.Some? && x.tier.value in tiers && lo <= x.masteryLevel;
    }
  }

  /** `rows[mask]`: the rows for which the mask holds. */
  function Where(rows: seq<Record>, m: Mask): (kept: seq<Record>)
    ensures |kept| <= |rows|
    ensures forall x :: x in kept <==> x in rows && Holds(m, x)
    ensures (forall x :: x in rows ==> Holds(m, x)) <==> kept == rows
  {
    if |rows| == 0 then []
    else
      var n := |rows| - 1;
      assert rows == rows[..n] + [rows[n]];
      assert rows[n] in rows;
      assert forall x :: x in rows[..n] ==> x in rows;
      var prefix := Where(rows[..n], m);
      if Holds(m, rows[n]) then prefix + [rows[n]] else prefix
  }

  /** A mask that holds for no row of the table selects nothing. */
  lemma WhereNone(rows: seq<Record>, m: Mask)
    ensures (forall x :: x in rows ==> !Holds(m, x)) ==> Where(rows, m) == []
  {
    var kept := Where(rows, m);
    if |kept| > 0 {
      assert kept[0] in kept;
    }
  }

  /** A table with a row the mask rejects loses at least that row. */
  lemma {:induction false} WhereDrops(rows: seq<Record>, m: Mask, x: Record)
    requires x in rows && !Holds(m, x)
    ensures |Where(rows, m)| < |rows|
  {
    var n := |rows| - 1;
    assert rows == rows[..n] + [rows[n]];
    if rows[n] != x {
      assert x in rows[..n];
      WhereDrops(rows[..n], m, x);
    }
  }

  /** Filtering keeps every copy of a selected row and no copy of any
      other: the kept rows are the selected sub-multiset of the table. */
  lemma {:induction false} WhereMultiset(rows: seq<Record>, m: Mask)
    ensures forall x :: multiset(Where(rows, m))[x] == if Holds(m, x) then multiset(rows)[x] else 0
  {
    if |rows| > 0 {
      var n := |rows| - 1;
      assert rows == rows[..n] + [rows[n]];
      WhereMultiset(rows[..n], m);
    }
  }

  /** `sub` is `s` with some rows taken out and the rest kept in order. */
  ghost predicate IsSubsequence(sub: seq<Record>, s: seq<Record>)
    decreases |s|
  {
    if |sub| == 0 then true
    else if |s| == 0 then false
    else
      (sub[|sub| - 1] == s[|s| - 1] && IsSubsequence(sub[..|sub| - 1], s[..|s| - 1]))
      || IsSubsequence(sub, s[..|s| - 1])
  }

  /** Filtering never reorders rows. */
  lemma {:induction false} WhereIsSubsequence(rows: seq<Record>, m: Mask)
    ensures IsSubsequence(Where(rows, m), rows)
  {
    if |rows| > 0 {
      var n := |rows| - 1;
      WhereIsSubsequence(rows[..n], m);
      var kept := Where(rows, m);
      if Holds(m, rows[n]) {
        assert kept[..|kept| - 1] == Where(rows[..n], m);
      }
    }
  }

  /** Filtering a table extended by one row. */
  lemma WhereSnoc(rows: seq<Record>, x: Record, m: Mask)
    ensures Where(rows + [x], m) == Where(rows, m) + (if Holds(m, x) then [x] else [])
  {
    assert (rows + [x])[..|rows|] == rows;
  }

  /** Filtering by one mask and then another is filtering by their
      conjunction. */
  lemma {:induction false} WhereAnd(rows: seq<Record>, a: Mask, b: Mask)
    ensures Where(Where(rows, a), b) == Where(rows, And(a, b))
  {
    if |rows| > 0 {
      var n := |rows| - 1;
      WhereAnd(rows[..n], a, b);
      if Holds(a, rows[n]) {
        WhereSnoc(Where(rows[..n], a), rows[n], b);
      }
    }
  }

  /** Masks that agree on every row of a table select the same rows. */
  lemma {:induction false} WhereCongruent(rows: seq<Record>, a: Mask, b: Mask)
    requires forall x :: x in rows ==> (Holds(a, x) <==> Holds(b, x))
    ensures Where(rows, a) == Where(rows, b)
  {
    if |rows| > 0 {
      var n := |rows| - 1;
      var prefix := rows[..n];
      assert rows == prefix + [rows[n]];
      assert rows[n] in rows;
      WhereCongruent(prefix, a, b);
    }
  }

  /** The order in which two masks are applied does not matter. */
  lemma WhereCommutes(rows: seq<Record>, a: Mask, b: Mask)
    ensures Where(Where(rows, a), b) == Where(Where(rows, b), a)
  {
    WhereAnd(rows, a, b);
    WhereAnd(rows, b, a);
    WhereCongruent(rows, And(a, b), And(b, a));
  }
}
