/**
 * The single-page app: its own copy of the min-max normalisation and of the
 * score, the scorecard sorted by score, the top-ten export, and the quick
 * demand forecast for one SKU.
 */
module App {
  import opened Wrappers
  import opened Scoring
  import opened Forecast
  import opened DemandSeries

  /** The page's inline `mm`. */
  function Mm(x: Column): (r: Column)
    ensures |r| == |x|
  {
    var lo, hi := ColMin(x), ColMax(x);
    seq(|x|, i requires 0 <= i < |x| =>
      if x[i].Some? && lo.Some? && hi.Some? then Some((x[i].value - lo.value) / (hi.value - lo.value + Eps))
      else None)
  }

  /** The page's inline score of one row: the weighted sum of its four
      normalised values, rounded to four decimals. */
  function PageScore(w: Weights, a: Option<real>, b: Option<real>, c: Option<real>, e: Option<real>): (r: Option<real>)
    ensures r.Some? <==> a.Some? && b.Some? && c.Some? && e.Some?
  {
    if a.Some? && b.Some? && c.Some? && e.Some? then
      Some(Round4(w.otd * a.value + w.cost * b.value + w.qual * c.value + w.risk * e.value))
    else None
  }

  /** The page's inline score of every row. */
  function PageScores(rows: seq<Supplier>, w: Weights, log1p: real -> real): (r: Column)
    ensures |r| == |rows|
  {
    var a, b, c, e := Mm(OtdColumn(rows)), Mm(CostColumn(rows)), Mm(QualityColumn(rows, log1p)), Mm(RiskColumn(rows));
    seq(|rows|, i requires 0 <= i < |rows| => PageScore(w, a[i], b[i], c[i], e[i]))
  }

  /** The page's table: every row, coerced, with its score, in input order. */
  function PageTable(rows: seq<Supplier>, w: Weights, log1p: real -> real): (t: seq<Scored>)
    ensures |t| == |rows|
  {
    var sc := PageScores(rows, w, log1p);
    seq(|rows|, i requires 0 <= i < |rows| => Scored(Coerce(rows[i]), sc[i]))
  }

  /** The page's `mm` is the library's `minmax`. */
  lemma MmAgrees(x: Column)
    ensures Mm(x) == MinMax(x)
  {
    var l, r := Mm(x), MinMax(x);
    forall i | 0 <= i < |x| ensures l[i] == r[i] {
    }
  }

  /** Scoring four columns the page's way agrees with the library's way. */
  lemma ColumnsAgree(w: Weights, a: Column, b: Column, c: Column, e: Column, i: nat)
    requires i < |a| && i < |b| && i < |c| && i < |e|
    ensures PageScore(w, Mm(a)[i], Mm(b)[i], Mm(c)[i], Mm(e)[i])
         == RoundScore(Combine(w, MinMax(a)[i], MinMax(b)[i], MinMax(c)[i], MinMax(e)[i]))
  {
    MmAgrees(a);
    MmAgrees(b);
    MmAgrees(c);
    MmAgrees(e);
    PageScoreIsRounded(w, MinMax(a)[i], MinMax(b)[i], MinMax(c)[i], MinMax(e)[i]);
  }

  lemma PageScoreIsRounded(w: Weights, a: Option<real>, b: Option<real>, c: Option<real>, e: Option<real>)
    ensures PageScore(w, a, b, c, e) == RoundScore(Combine(w, a, b, c, e))
  {
  }

  /** The page's score of one row is the library's. */
  lemma PageScoreAt(rows: seq<Supplier>, w: Weights, log1p: real -> real, i: nat)
    requires i < |rows|
    ensures PageScores(rows, w, log1p)[i] == Scores(rows, w, log1p)[i]
  {
    ColumnsAgree(w, OtdColumn(rows), CostColumn(rows), QualityColumn(rows, log1p), RiskColumn(rows), i);
    RawScoreAt(rows, w, log1p, i);
    ScoreAt(rows, w, log1p, i);
  }

  /** The page's score is the library's `supplier_scores` score, row by row,
      so the page's table is the library's. */
  lemma PageScoresAgree(rows: seq<Supplier>, w: Weights, log1p: real -> real)
    ensures PageScores(rows, w, log1p) == Scores(rows, w, log1p)
    ensures PageTable(rows, w, log1p) == ScoredRows(rows, w, log1p)
  {
    var l, r := PageScores(rows, w, log1p), Scores(rows, w, log1p);
    forall i | 0 <= i < |rows| ensures l[i] == r[i] {
      PageScoreAt(rows, w, log1p, i);
    }
  }

  /** The scorecard the page shows: the table sorted by score, descending. */
  function Scorecard(rows: seq<Supplier>, w: Weights, log1p: real -> real): (r: seq<Scored>)
    ensures SortedByScore(r)
    ensures multiset(r) == multiset(PageTable(rows, w, log1p))
  {
    SortByScore(PageTable(rows, w, log1p))
  }

  /** The page shows what `supplier_scores` returns. */
  lemma ScorecardAgrees(rows: seq<Supplier>, w: Weights, log1p: real -> real)
    ensures Scorecard(rows, w, log1p) == SupplierScores(rows, w, log1p)
  {
    PageScoresAgree(rows, w, log1p);
  }

  function MinInt(a: int, b: int): int
  {
    if a <= b then a else b
  }

  /** In a sorted sequence every element of a prefix is at least every
      element after it. */
  lemma PrefixDominates(s: seq<Scored>, n: nat)
    requires SortedByScore(s) && n <= |s|
    ensures forall x, y :: x in s[..n] && y in s[n..] ==> AtLeast(x.score, y.score)
  {
    forall x, y | x in s[..n] && y in s[n..] ensures AtLeast(x.score, y.score) {
      var i :| 0 <= i < n && s[..n][i] == x;
      var j :| 0 <= j < |s| - n && s[n..][j] == y;
      assert s[i] == x && s[n + j] == y;
    }
  }

  /** `nlargest(10, "score")`: the ten rows with the highest scores (all
      rows when there are fewer), undefined scores last. */
  function TopTen(table: seq<Scored>): (top: seq<Scored>)
    ensures |top| == MinInt(10, |table|)
    ensures multiset(top) <= multiset(table)
    ensures SortedByScore(top)
    ensures forall x, y :: x in top && y in multiset(table) - multiset(top) ==> AtLeast(x.score, y.score)
  {
    var s := SortByScore(table);
    var n := MinInt(10, |table|);
    assert s == s[..n] + s[n..];
    assert multiset(table) - multiset(s[..n]) == multiset(s[n..]);
    PrefixDominates(s, n);
    s[..n]
  }

  /** The quick forecast for one SKU: the daily series of its rows, its
      trailing means and the flat forecast. */
  function QuickForecast(rows: seq<RawRow>, sku: string, window: nat, horizon: nat): (r: Option<ForecastResult>)
    requires window >= 1
    ensures r.None? <==> Series(rows, sku).None? || |Series(rows, sku).value.vals| == 0
    ensures r.Some? ==> |r.value.future.vals| == horizon
  {
    match Series(rows, sku)
    case None => None
    case Some(ts) => MovingAverageForecast(ts, window, horizon)
  }

  /** The quick forecast exists exactly when the SKU has observations on
      distinct days; it then covers every day from the first to the last
      observation, and forecasts the last trailing mean for each of the
      `horizon` days after the last observation. */
  lemma QuickForecastSpec(rows: seq<RawRow>, sku: string, window: nat, horizon: nat)
    requires window >= 1
    ensures var obs, r := SkuRows(rows, sku), QuickForecast(rows, sku, window, horizon);
      && (r.Some? <==> |obs| > 0 && UniqueDates(obs))
      && (r.Some? ==>
            && r.value.ma.first == MinDate(obs)
            && |r.value.ma.vals| == MaxDate(obs) - MinDate(obs) + 1
            && r.value.future.first == MaxDate(obs) + 1
            && |r.value.future.vals| == horizon
            && forall k :: 0 <= k < horizon ==> r.value.future.vals[k] == LastValue(r.value.ma.vals))
  {
    var obs := SkuRows(rows, sku);
    if |obs| > 0 && UniqueDates(obs) {
      SeriesSpan(obs);
    }
  }

  /** Two rows of the SKU whose dates parse to the same day: `asfreq` raises,
      so there is no forecast. */
  lemma DuplicateDayNoForecast(rows: seq<RawRow>, sku: string, i: nat, j: nat, window: nat, horizon: nat)
    requires window >= 1 && i < j < |rows|
    requires rows[i].date.Some? && rows[j].date == rows[i].date
    requires rows[i].sku == sku && rows[j].sku == sku
    ensures QuickForecast(rows, sku, window, horizon).None?
  {
    DuplicateDayNoSeries(rows, sku, i, j);
  }
}
