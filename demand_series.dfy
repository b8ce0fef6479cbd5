/**
 * The demand history of one SKU as a daily series: rows whose date did not
 * parse are dropped, a quantity that did not parse counts as 0, the rows of
 * the chosen SKU are put on a grid with one entry per day from the first to
 * the last observed day (pandas `asfreq("D")`), and each day without an
 * observation takes the quantity of the nearest later observed day
 * (`bfill`).
 *
 * Dates are integer day numbers; date parsing is reduced to "parsed"
 * (`Some`) or "did not parse" (`None`).
 */
module DemandSeries {
  import opened Wrappers
  import opened Forecast

  /** A row of the uploaded demand table after parsing. */
  datatype RawRow = RawRow(date: Option<int>, sku: string, qty: Option<real>)

  /** A row that survived cleaning: its date parsed and its quantity is a number. */
  datatype Obs = Obs(date: int, sku: string, qty: real)

  /** Drop the rows whose date did not parse; an unparsed quantity becomes 0.
      The surviving rows keep their order. */
  function Clean(rows: seq<RawRow>): (obs: seq<Obs>)
    ensures |obs| <= |rows|
    ensures forall o :: o in obs <==>
              exists r :: r in rows && r.date.Some? && o == Obs(r.date.value, r.sku, r.qty.GetOr(0.0))
  {
    if rows == [] then []
    else
      var r, rest := rows[0], Clean(rows[1..]);
      assert forall x :: x in rows <==> x == r || x in rows[1..];
      if r.date.Some? then [Obs(r.date.value, r.sku, r.qty.GetOr(0.0))] + rest else rest
  }

  /** The observations of one SKU, in order. */
  function ForSku(obs: seq<Obs>, sku: string): (r: seq<Obs>)
    ensures forall o :: o in r <==> o in obs && o.sku == sku
    ensures forall o :: multiset(r)[o] == if o.sku == sku then multiset(obs)[o] else 0
  {
    if obs == [] then []
    else
      var rest := ForSku(obs[1..], sku);
      assert forall x :: x in obs <==> x == obs[0] || x in obs[1..];
      assert obs == [obs[0]] + obs[1..];
      if obs[0].sku == sku then [obs[0]] + rest else rest
  }

  /** Cleaning works row by row: the rows of a concatenation clean to the
      concatenation of the cleaned parts, each parsed row once, in order. */
  lemma {:induction false} CleanAppend(a: seq<RawRow>, b: seq<RawRow>)
    ensures Clean(a + b) == Clean(a) + Clean(b)
  {
    if a == [] {
      assert a + b == b;
    } else {
      assert (a + b)[0] == a[0] && (a + b)[1..] == a[1..] + b;
      CleanAppend(a[1..], b);
    }
  }

  /** A single row cleans to its one observation when its date parsed, and
      to nothing otherwise. */
  lemma CleanOne(r: RawRow)
    ensures r.date.Some? ==> Clean([r]) == [Obs(r.date.value, r.sku, r.qty.GetOr(0.0))]
    ensures r.date.None? ==> Clean([r]) == []
  {
    assert [r][1..] == [];
  }

  /** Filtering by SKU works row by row as well. */
  lemma {:induction false} ForSkuAppend(a: seq<Obs>, b: seq<Obs>, sku: string)
    ensures ForSku(a + b, sku) == ForSku(a, sku) + ForSku(b, sku)
  {
    if a == [] {
      assert a + b == b;
    } else {
      assert (a + b)[0] == a[0] && (a + b)[1..] == a[1..] + b;
      ForSkuAppend(a[1..], b, sku);
    }
  }

  /** No two observations fall on the same day. */
  predicate UniqueDates(obs: seq<Obs>)
  {
    forall i, j :: 0 <= i < j < |obs| ==> obs[i].date != obs[j].date
  }

  /** Some observation falls on day `d`. */
  predicate Observed(obs: seq<Obs>, d: int)
  {
    exists i :: 0 <= i < |obs| && obs[i].date == d
  }

  function MinDate(obs: seq<Obs>): (d: int)
    requires |obs| > 0
    ensures forall i :: 0 <= i < |obs| ==> d <= obs[i].date
    ensures exists i :: 0 <= i < |obs| && obs[i].date == d
  {
    if |obs| == 1 then obs[0].date
    else
      var m := MinDate(obs[1..]);
      assert forall i :: 1 <= i < |obs| ==> obs[i] == obs[1..][i - 1];
      if obs[0].date <= m then obs[0].date else m
  }

  function MaxDate(obs: seq<Obs>): (d: int)
    requires |obs| > 0
    ensures forall i :: 0 <= i < |obs| ==> obs[i].date <= d
    ensures exists i :: 0 <= i < |obs| && obs[i].date == d
  {
    if |obs| == 1 then obs[0].date
    else
      var m := MaxDate(obs[1..]);
      assert forall i :: 1 <= i < |obs| ==> obs[i] == obs[1..][i - 1];
      if obs[0].date >= m then obs[0].date else m
  }

  /** The quantity observed on day `d`, if any. */
  function Lookup(obs: seq<Obs>, d: int): (q: Option<real>)
    ensures q.None? <==> !Observed(obs, d)
    ensures q.Some? ==> exists i :: 0 <= i < |obs| && obs[i].date == d && obs[i].qty == q.value
  {
    if obs == [] then None
    else
      var rest := Lookup(obs[1..], d);
      assert forall i :: 1 <= i < |obs| ==> obs[i] == obs[1..][i - 1];
      assert Observed(obs[1..], d) ==> Observed(obs, d) by {
        if Observed(obs[1..], d) {
          var i :| 0 <= i < |obs[1..]| && obs[1..][i].date == d;
          assert obs[i + 1].date == d;
        }
      }
      if obs[0].date == d then Some(obs[0].qty) else rest
  }

  /** With one observation per day, the quantity found on an observed day is
      that observation's. */
  lemma LookupUnique(obs: seq<Obs>, i: nat)
    requires UniqueDates(obs) && i < |obs|
    ensures Lookup(obs, obs[i].date) == Some(obs[i].qty)
  {
    var q := Lookup(obs, obs[i].date);
    var k :| 0 <= k < |obs| && obs[k].date == obs[i].date && obs[k].qty == q.value;
    assert k == i;
  }

  /** `asfreq("D")`: one entry per day from `lo` to `hi`, missing where no
      observation falls. */
  function Grid(obs: seq<Obs>, lo: int, hi: int): (g: seq<Option<real>>)
    requires lo <= hi + 1
    ensures |g| == hi - lo + 1
    ensures forall k :: 0 <= k < |g| ==> g[k] == Lookup(obs, lo + k)
  {
    seq(hi - lo + 1, k requires 0 <= k < hi - lo + 1 => Lookup(obs, lo + k))
  }

  /** The grid entry of day `d` is that day's lookup. */
  lemma GridAt(obs: seq<Obs>, lo: int, hi: int, d: int)
    requires lo <= d <= hi
    ensures Grid(obs, lo, hi)[d - lo] == Lookup(obs, d)
  {
  }

  /** The nearest defined entry at or after index `i` is at index `j`. */
  ghost predicate NextDefined(g: seq<Option<real>>, i: int, j: int)
  {
    0 <= i <= j < |g| && g[j].Some? && forall k :: i <= k < j ==> g[k].None?
  }

  /** The value of the nearest defined entry at or after index `i`, if any. */
  function NextValue(g: seq<Option<real>>, i: nat): Option<real>
    requires i <= |g|
    decreases |g| - i
  {
    if i == |g| then None
    else if g[i].Some? then g[i]
    else NextValue(g, i + 1)
  }

  /** `NextValue` finds the nearest defined entry, and finds nothing only
      when every entry from `i` on is missing. */
  lemma {:induction false} NextValueSpec(g: seq<Option<real>>, i: nat)
    requires i <= |g|
    ensures NextValue(g, i).Some? ==> exists j :: NextDefined(g, i, j) && NextValue(g, i) == g[j]
    ensures NextValue(g, i).None? ==> forall j :: i <= j < |g| ==> g[j].None?
    decreases |g| - i
  {
    if i == |g| {
    } else if g[i].Some? {
      assert NextDefined(g, i, i);
    } else {
      NextValueSpec(g, i + 1);
      if NextValue(g, i).Some? {
        var j :| NextDefined(g, i + 1, j) && NextValue(g, i + 1) == g[j];
        assert NextDefined(g, i, j);
      }
    }
  }

  /** `bfill`: every missing entry takes the value of the nearest defined
      entry after it. */
  function Bfill(g: seq<Option<real>>): (r: seq<Option<real>>)
    ensures |r| == |g|
  {
    seq(|g|, i requires 0 <= i < |g| => NextValue(g, i))
  }

  /** A defined entry keeps its value; a missing one takes the value of the
      nearest defined entry after it, and stays missing only when no defined
      entry follows. */
  lemma BfillSpec(g: seq<Option<real>>, i: nat)
    requires i < |g|
    ensures g[i].Some? ==> Bfill(g)[i] == g[i]
    ensures Bfill(g)[i].Some? ==> exists j :: NextDefined(g, i, j) && Bfill(g)[i] == g[j]
    ensures Bfill(g)[i].None? ==> forall j :: i <= j < |g| ==> g[j].None?
  {
    NextValueSpec(g, i);
  }

  /** Strip the `Some` off a sequence with no missing entry. */
  function Unwrap(g: seq<Option<real>>): (v: seq<real>)
    requires forall i :: 0 <= i < |g| ==> g[i].Some?
    ensures |v| == |g| && forall i :: 0 <= i < |g| ==> g[i] == Some(v[i])
  {
    seq(|g|, i requires 0 <= i < |g| => g[i].value)
  }

  /** The grid of a non-empty set of observations has a defined last entry,
      so backward filling leaves nothing missing. */
  lemma BfillComplete(obs: seq<Obs>)
    requires |obs| > 0
    ensures forall i :: 0 <= i < MaxDate(obs) - MinDate(obs) + 1 ==>
      Bfill(Grid(obs, MinDate(obs), MaxDate(obs)))[i].Some?
  {
    var g := Grid(obs, MinDate(obs), MaxDate(obs));
    assert g[|g| - 1].Some?;
    forall i | 0 <= i < |g| ensures Bfill(g)[i].Some? {
      BfillSpec(g, i);
    }
  }

  /** The observations the series of `sku` is built from. */
  function SkuRows(rows: seq<RawRow>, sku: string): (obs: seq<Obs>)
    ensures forall o :: o in obs <==> o.sku == sku && o in Clean(rows)
    ensures forall o :: multiset(obs)[o] == if o.sku == sku then multiset(Clean(rows))[o] else 0
  {
    ForSku(Clean(rows), sku)
  }

  /** The daily series of a set of observations (sorted by date, indexed by
      date, `asfreq("D")`, `bfill`). No daily grid exists when two
      observations share a day; no observations give the empty series. */
  function DailySeries(obs: seq<Obs>): (r: Option<Daily>)
    ensures r.None? <==> |obs| > 0 && !UniqueDates(obs)
    ensures r.Some? && |obs| == 0 ==> r.value.vals == []
    ensures r.Some? && |obs| > 0 ==>
              r.value.first == MinDate(obs) && |r.value.vals| == MaxDate(obs) - MinDate(obs) + 1
  {
    if obs == [] then Some(Daily(0, []))
    else if !UniqueDates(obs) then None
    else
      BfillComplete(obs);
      Some(Daily(MinDate(obs), Unwrap(Bfill(Grid(obs, MinDate(obs), MaxDate(obs))))))
  }

  /** Two raw rows of the SKU whose dates parse to the same day leave two
      observations on that day: there is then no daily series. */
  lemma DuplicateDayNoSeries(rows: seq<RawRow>, sku: string, i: nat, j: nat)
    requires i < j < |rows|
    requires rows[i].date.Some? && rows[j].date == rows[i].date
    requires rows[i].sku == sku && rows[j].sku == sku
    ensures !UniqueDates(SkuRows(rows, sku))
    ensures Series(rows, sku).None?
  {
    var a, b, c := rows[..i], rows[i + 1..j], rows[j + 1..];
    var x, y := rows[i], rows[j];
    assert rows == (((a + [x]) + b) + [y]) + c;
    CleanAppend(((a + [x]) + b) + [y], c);
    CleanAppend((a + [x]) + b, [y]);
    CleanAppend(a + [x], b);
    CleanAppend(a, [x]);
    CleanOne(x);
    CleanOne(y);
    var ox, oy := Obs(x.date.value, sku, x.qty.GetOr(0.0)), Obs(y.date.value, sku, y.qty.GetOr(0.0));
    var ca, cb, cc := Clean(a), Clean(b), Clean(c);
    assert Clean(rows) == (((ca + [ox]) + cb) + [oy]) + cc;
    ForSkuAppend(((ca + [ox]) + cb) + [oy], cc, sku);
    ForSkuAppend((ca + [ox]) + cb, [oy], sku);
    ForSkuAppend(ca + [ox], cb, sku);
    ForSkuAppend(ca, [ox], sku);
    assert ForSku([ox], sku) == [ox] by { assert [ox][1..] == []; }
    assert ForSku([oy], sku) == [oy] by { assert [oy][1..] == []; }
    var fa, fb := ForSku(ca, sku), ForSku(cb, sku);
    var obs := SkuRows(rows, sku);
    assert obs == (((fa + [ox]) + fb) + [oy]) + ForSku(cc, sku);
    assert obs[|fa|] == ox;
    assert obs[|fa| + 1 + |fb|] == oy;
  }

  /** The daily series of one SKU (app.py's `ts`). */
  function Series(rows: seq<RawRow>, sku: string): (r: Option<Daily>)
    ensures r.None? <==> |SkuRows(rows, sku)| > 0 && !UniqueDates(SkuRows(rows, sku))
  {
    DailySeries(SkuRows(rows, sku))
  }

  // ---------------------------------------------------------------------------
  // Properties of the series.
  // ---------------------------------------------------------------------------

  /** A valid series holds the filled grid. */
  lemma DailySeriesValues(obs: seq<Obs>)
    requires DailySeries(obs).Some? && |obs| > 0
    ensures var ts, f := DailySeries(obs).value, Bfill(Grid(obs, MinDate(obs), MaxDate(obs)));
      |ts.vals| == |f| && forall k :: 0 <= k < |f| ==> f[k] == Some(ts.vals[k])
  {
  }

  /** Observed days keep their own quantity. */
  lemma SeriesObserved(obs: seq<Obs>, i: nat)
    requires DailySeries(obs).Some? && i < |obs|
    ensures var ts := DailySeries(obs).value;
      0 <= obs[i].date - ts.first < |ts.vals| && ts.vals[obs[i].date - ts.first] == obs[i].qty
  {
    LookupUnique(obs, i);
    DailySeriesValues(obs);
    GridAt(obs, MinDate(obs), MaxDate(obs), obs[i].date);
  }

  /** On a valid series each day holds the nearest defined grid entry at or
      after it. */
  lemma SeriesFilled(obs: seq<Obs>, k: nat)
    requires DailySeries(obs).Some? && k < |DailySeries(obs).value.vals|
    ensures |obs| > 0
    ensures exists j :: NextDefined(Grid(obs, MinDate(obs), MaxDate(obs)), k, j) &&
                        Grid(obs, MinDate(obs), MaxDate(obs))[j] == Some(DailySeries(obs).value.vals[k])
  {
    DailySeriesValues(obs);
    BfillSpec(Grid(obs, MinDate(obs), MaxDate(obs)), k);
  }

  /** A day without an observation takes the quantity of the nearest later
      observed day. */
  lemma SeriesGap(obs: seq<Obs>, k: nat)
    requires DailySeries(obs).Some? && k < |DailySeries(obs).value.vals|
    ensures var ts := DailySeries(obs).value;
      exists d :: ts.first + k <= d < ts.first + |ts.vals| &&
        Lookup(obs, d) == Some(ts.vals[k]) &&
        forall e :: ts.first + k <= e < d ==> !Observed(obs, e)
  {
    SeriesFilled(obs, k);
    var lo, hi := MinDate(obs), MaxDate(obs);
    var j :| NextDefined(Grid(obs, lo, hi), k, j) && Grid(obs, lo, hi)[j] == Some(DailySeries(obs).value.vals[k]);
    GridAt(obs, lo, hi, lo + j);
    forall e | lo + k <= e < lo + j ensures !Observed(obs, e) {
      GridAt(obs, lo, hi, e);
    }
  }

  /** The series spans the days from the earliest to the latest observation. */
  lemma SeriesSpan(obs: seq<Obs>)
    requires DailySeries(obs).Some? && |obs| > 0
    ensures var ts := DailySeries(obs).value;
      ts.first == MinDate(obs) && |ts.vals| > 0 && ts.first + |ts.vals| - 1 == MaxDate(obs)
  {
  }

  /** The last value of the series is the latest observation's quantity. */
  lemma SeriesLastValue(obs: seq<Obs>)
    requires DailySeries(obs).Some? && |obs| > 0
    ensures var ts := DailySeries(obs).value;
      Lookup(obs, MaxDate(obs)) == Some(ts.vals[|ts.vals| - 1])
  {
    DailySeriesValues(obs);
    GridAt(obs, MinDate(obs), MaxDate(obs), MaxDate(obs));
  }

  /** The last day of the series is the latest observed day, with its quantity. */
  lemma SeriesLast(obs: seq<Obs>)
    requires DailySeries(obs).Some? && |obs| > 0
    ensures var ts := DailySeries(obs).value;
      |ts.vals| > 0 && ts.first + |ts.vals| - 1 == MaxDate(obs) &&
      Lookup(obs, MaxDate(obs)) == Some(ts.vals[|ts.vals| - 1])
  {
    SeriesSpan(obs);
    SeriesLastValue(obs);
  }
}
