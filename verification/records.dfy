/** Match records and the derivation stage that adds the computed columns
    (Streamlit/app.py lines 24-29). */
module Records {
  import opened Maybe
  import opened Tiers
  import opened Stats

  /** A row as loaded from the data set: `duration` is in seconds and
      `soloTier` is the raw tier label. */
  datatype RawRecord = RawRecord(win: bool, duration: real, masteryLevel: int, soloTier: string)

  /** A row after derivation: the tier label has become the ordered category
      (missing when the label is unknown), and `winNumeric` and
      `durationMinutes` have been added. */
  datatype Record = Record(
    win: bool,
    duration: real,
    masteryLevel: int,
    tier: Option<Tier>,
    winNumeric: int,
    durationMinutes: real)

  /** The numeric columns that are averaged. */
  datatype Metric = WinNumeric | DurationMinutes

  /** The relation between a record's raw and derived columns that
      derivation establishes. */
  predicate WellFormed(r: Record) {
    && r.winNumeric == (if r.win then 1 else 0)
    && r.durationMinutes * 60.0 == r.duration
  }

  /** Derivation of one row: the boolean win flag cast to 0 or 1, seconds to
      minutes, the tier label to the ordered category. */
  function DeriveRow(raw: RawRecord): (r: Record)
    ensures WellFormed(r)
    ensures r.win == raw.win && r.duration == raw.duration && r.masteryLevel == raw.masteryLevel
    ensures forall t: Tier :: r.tier == Some(t) <==> raw.soloTier == Name(t)
  {
    Record(raw.win, raw.duration, raw.masteryLevel, Parse(raw.soloTier),
           if raw.win then 1 else 0, raw.duration / 60.0)
  }

  /** The raw row a derived row came from, when its tier is known. */
  function Underive(r: Record): Option<RawRecord> {
    match r.tier
    case Some(t) => Some(RawRecord(r.win, r.duration, r.masteryLevel, Name(t)))
    case None => None
  }

  /** Deriving a row with a known tier label loses nothing: the raw row can
      be read back from the derived one. */
  lemma UnderiveDeriveRow(raw: RawRecord)
    requires Parse(raw.soloTier).Some?
    ensures Underive(DeriveRow(raw)) == Some(raw)
  {
  }

  /** Derivation of the whole table, row by row. */
  function Derive(table: seq<RawRecord>): (df: seq<Record>)
    ensures |df| == |table|
    ensures forall i :: 0 <= i < |df| ==> WellFormed(df[i])
    ensures forall i :: 0 <= i < |df| ==>
      && df[i].win == table[i].win
      && df[i].masteryLevel == table[i].masteryLevel
      && df[i].duration == table[i].duration
    ensures forall i, t: Tier :: 0 <= i < |df| ==>
      (df[i].tier == Some(t) <==> table[i].soloTier == Name(t))
  {
    seq(|table|, i requires 0 <= i < |table| => DeriveRow(table[i]))
  }

  /** The value a record contributes to a metric's column. */
  function Value(r: Record, m: Metric): real {
    match m
    case WinNumeric => r.winNumeric as real
    case DurationMinutes => r.durationMinutes
  }

  /** A metric's column over a table, in row order. */
  function Column(rows: seq<Record>, m: Metric): (col: seq<real>)
    ensures |col| == |rows|
    ensures forall i :: 0 <= i < |rows| ==> col[i] == Value(rows[i], m)
  {
    seq(|rows|, i requires 0 <= i < |rows| => Value(rows[i], m))
  }

  /** Mean of a metric over a table. */
  function MeanOf(rows: seq<Record>, m: Metric): Option<real> {
    Mean(Column(rows, m))
  }

  /** Number of won matches: an independent account of the win column. */
  function WinCount(rows: seq<Record>): (n: nat)
    ensures n <= |rows|
  {
    if |rows| == 0 then 0
    else WinCount(rows[..|rows| - 1]) + (if rows[|rows| - 1].win then 1 else 0)
  }

  lemma ColumnSnoc(rows: seq<Record>, m: Metric)
    requires |rows| > 0
    ensures Column(rows, m) == Column(rows[..|rows| - 1], m) + [Value(rows[|rows| - 1], m)]
  {
  }

  /** Appending a row appends its value to the column. */
  lemma ColumnAppend(rows: seq<Record>, r: Record, m: Metric)
    ensures Column(rows + [r], m) == Column(rows, m) + [Value(r, m)]
  {
    ColumnSnoc(rows + [r], m);
    assert (rows + [r])[..|rows|] == rows;
  }

  /** Appending a row adds its value to the column's sum. */
  lemma SumColumnAppend(rows: seq<Record>, r: Record, m: Metric)
    ensures Sum(Column(rows + [r], m)) == Sum(Column(rows, m)) + Value(r, m)
  {
    ColumnAppend(rows, r, m);
    SumSnoc(Column(rows, m), Value(r, m));
  }

  /** On well-formed rows the win column sums to the number of wins. */
  lemma {:induction false} SumWinColumn(rows: seq<Record>)
    requires forall i :: 0 <= i < |rows| ==> WellFormed(rows[i])
    ensures Sum(Column(rows, WinNumeric)) == WinCount(rows) as real
  {
    if |rows| > 0 {
      var n := |rows| - 1;
      SumWinColumn(rows[..n]);
      ColumnSnoc(rows, WinNumeric);
      assert Column(rows, WinNumeric)[..n] == Column(rows[..n], WinNumeric);
    }
  }

  /** The mean of the win column is the share of won matches, so it lies in
      [0, 1]. */
  lemma WinMeanIsShare(rows: seq<Record>)
    requires |rows| > 0
    requires forall i :: 0 <= i < |rows| ==> WellFormed(rows[i])
    ensures MeanOf(rows, WinNumeric) == Some((WinCount(rows) as real) / (|rows| as real))
    ensures 0.0 <= MeanOf(rows, WinNumeric).value <= 1.0
  {
    SumWinColumn(rows);
    var col := Column(rows, WinNumeric);
    forall i | 0 <= i < |col|
      ensures 0.0 <= col[i] <= 1.0
    {
      assert WellFormed(rows[i]);
    }
    MeanBounds(col, 0.0, 1.0);
  }
}
