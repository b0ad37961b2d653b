/** The competitive rank tier, an ordered category over a fixed vocabulary
    (Streamlit/app.py lines 27-29). */
module Tiers {
  import opened Maybe

  datatype Tier =
    | Iron | Bronze | Silver | Gold | Platinum
    | Emerald | Diamond | Master | Grandmaster | Challenger

  /** The category order, lowest tier first. */
  const TierOrder: seq<Tier> :=
    [Iron, Bronze, Silver, Gold, Platinum, Emerald, Diamond, Master, Grandmaster, Challenger]

  /** Every tier of the vocabulary: the default multiselect choice. */
  const AllTiers: set<Tier> := set t | t in TierOrder

  /** Position of a tier in the category order. */
  function Index(t: Tier): (i: nat)
    ensures i < |TierOrder| && TierOrder[i] == t
  {
    match t
    case Iron => 0
    case Bronze => 1
    case Silver => 2
    case Gold => 3
    case Platinum => 4
    case Emerald => 5
    case Diamond => 6
    case Master => 7
    case Grandmaster => 8
    case Challenger => 9
  }

  /** The ordered-category comparison: `a` ranks strictly below `b`. */
  predicate Below(a: Tier, b: Tier) {
    Index(a) < Index(b)
  }

  /** The label the data set uses for a tier. */
  function Name(t: Tier): string {
    match t
    case Iron => "IRON"
    case Bronze => "BRONZE"
    case Silver => "SILVER"
    case Gold => "GOLD"
    case Platinum => "PLATINUM"
    case Emerald => "EMERALD"
    case Diamond => "DIAMOND"
    case Master => "MASTER"
    case Grandmaster => "GRANDMASTER"
    case Challenger => "CHALLENGER"
  }

  /** Conversion of a raw label to the category: a label outside the
      vocabulary becomes a missing value, never some other tier. */
  function Parse(s: string): (t: Option<Tier>)
    ensures t.Some? ==> Name(t.value) == s
    ensures t.None? ==> forall u: Tier :: Name(u) != s
  {
    if s == "IRON" then Some(Iron)
    else if s == "BRONZE" then Some(Bronze)
    else if s == "SILVER" then Some(Silver)
    else if s == "GOLD" then Some(Gold)
    else if s == "PLATINUM" then Some(Platinum)
    else if s == "EMERALD" then Some(Emerald)
    else if s == "DIAMOND" then Some(Diamond)
    else if s == "MASTER" then Some(Master)
    else if s == "GRANDMASTER" then Some(Grandmaster)
    else if s == "CHALLENGER" then Some(Challenger)
    else None
  }

  /** The category order is a strict total order that lists every tier once. */
  lemma TierOrderIsStrict()
    ensures forall i, j :: 0 <= i < j < |TierOrder| ==> Below(TierOrder[i], TierOrder[j])
    ensures forall t: Tier :: t in TierOrder && t in AllTiers
    ensures forall i :: 0 <= i < |TierOrder| ==> Index(TierOrder[i]) == i
    ensures forall a: Tier, b: Tier :: a == b || Below(a, b) || Below(b, a)
  {
    forall i, j | 0 <= i < j < |TierOrder|
      ensures Below(TierOrder[i], TierOrder[j])
    {
      assert Index(TierOrder[i]) == i;
      assert Index(TierOrder[j]) == j;
    }
    forall t: Tier
      ensures t in TierOrder && t in AllTiers
    {
      assert TierOrder[Index(t)] == t;
    }
  }

  /** A list of tiers in strictly rising category order. */
  predicate Ascending(ts: seq<Tier>) {
    forall i, j :: 0 <= i < j < |ts| ==> Below(ts[i], ts[j])
  }

  /** Two tier lists in rising category order that hold the same tiers are
      the same list: the category order alone fixes where each tier goes. */
  lemma {:induction false} AscendingUnique(a: seq<Tier>, b: seq<Tier>)
    requires Ascending(a) && Ascending(b)
    requires forall t :: t in a <==> t in b
    ensures a == b
  {
    assert |a| > 0 ==> a[0] in a;
    assert |b| > 0 ==> b[0] in b;
    if |a| > 0 {
      var i :| 0 <= i < |a| && a[i] == b[0];
      var j :| 0 <= j < |b| && b[j] == a[0];
      assert Index(a[0]) <= Index(a[i]) && Index(b[0]) <= Index(b[j]);
      assert TierOrder[Index(a[0])] == a[0] && TierOrder[Index(b[0])] == b[0];
      forall t | t in a[1..] ensures t in b[1..] {
        var k :| 1 <= k < |a| && a[k] == t;
        assert Below(a[0], t) && t in a;
        var l :| 0 <= l < |b| && b[l] == t;
        assert l != 0;
        assert b[1..][l - 1] == t;
      }
      forall t | t in b[1..] ensures t in a[1..] {
        var l :| 1 <= l < |b| && b[l] == t;
        assert Below(b[0], t) && t in b;
        var k :| 0 <= k < |a| && a[k] == t;
        assert k != 0;
        assert a[1..][k - 1] == t;
      }
      AscendingUnique(a[1..], b[1..]);
      assert a == [a[0]] + a[1..] && b == [b[0]] + b[1..];
    }
  }

  /** Parsing a tier's own label gives the tier back. */
  lemma ParseName(t: Tier)
    ensures Parse(Name(t)) == Some(t)
  {
  }
}
