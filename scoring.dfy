/**
 * The supplier scorer: min-max normalisation of four metric columns with an
 * epsilon guard, a weighted sum in which the "lower is better" metrics are
 * negated, rounding to four decimals, and a descending sort by score.
 *
 * Numbers are reals. A metric that did not parse as a number is `None` (the
 * NaN of the numeric coercion) and poisons only its own row's score. The
 * natural logarithm `log1p` is a parameter; the properties that need it to be
 * increasing say so in their preconditions.
 */
module Scoring {
  import opened Wrappers

  /** A supplier row after numeric coercion of its four metric fields. */
  datatype Supplier = Supplier(
    id: string,
    name: string,
    otd: Option<real>,
    costVariance: Option<real>,
    qualityPpm: Option<real>,
    riskEvents: Option<real>)

  /** The caller's weights; they need not sum to one. */
  datatype Weights = Weights(otd: real, cost: real, qual: real, risk: real)

  /** A supplier row together with its score (`None` for an undefined score). */
  datatype Scored = Scored(supplier: Supplier, score: Option<real>)

  type Column = seq<Option<real>>

  /** The guard added to the range of every normalised column. */
  const Eps: real := 0.000000001

  // ---------------------------------------------------------------------------
  // Min-max normalisation.
  // ---------------------------------------------------------------------------

  /** The smallest defined value of a column; missing values are skipped, and
      a column with no defined value has no minimum. */
  function ColMin(col: Column): (r: Option<real>)
    ensures r.None? <==> forall i :: 0 <= i < |col| ==> col[i].None?
    ensures r.Some? ==> forall i :: 0 <= i < |col| && col[i].Some? ==> r.value <= col[i].value
    ensures r.Some? ==> exists i :: 0 <= i < |col| && col[i] == r
  {
    if col == [] then None
    else
      var rest := ColMin(col[1..]);
      assert forall i :: 1 <= i < |col| ==> col[i] == col[1..][i - 1];
      match col[0]
      case None => rest
      case Some(v) => if rest.Some? && rest.value < v then rest else Some(v)
  }

  /** The largest defined value of a column. */
  function ColMax(col: Column): (r: Option<real>)
    ensures r.None? <==> forall i :: 0 <= i < |col| ==> col[i].None?
    ensures r.Some? ==> forall i :: 0 <= i < |col| && col[i].Some? ==> col[i].value <= r.value
    ensures r.Some? ==> exists i :: 0 <= i < |col| && col[i] == r
  {
    if col == [] then None
    else
      var rest := ColMax(col[1..]);
      assert forall i :: 1 <= i < |col| ==> col[i] == col[1..][i - 1];
      match col[0]
      case None => rest
      case Some(v) => if rest.Some? && rest.value > v then rest else Some(v)
  }

  /** `(x - min) / (max - min + Eps)` for every defined entry. */
  function MinMax(col: Column): (r: Column)
    ensures |r| == |col|
    ensures forall i :: 0 <= i < |col| ==> (r[i].Some? <==> col[i].Some?)
    ensures forall i :: 0 <= i < |col| && r[i].Some? ==> 0.0 <= r[i].value < 1.0
  {
    var lo, hi := ColMin(col), ColMax(col);
    seq(|col|, i requires 0 <= i < |col| =>
      if col[i].Some? && lo.Some? && hi.Some? then
        Some(Normalise(col[i].value, lo.value, hi.value))
      else None)
  }

  /** One normalised value; in [0, 1) because the guard makes the denominator
      exceed the distance from the minimum. */
  function Normalise(x: real, lo: real, hi: real): (r: real)
    requires lo <= x <= hi
    ensures 0.0 <= r < 1.0
    ensures x == lo ==> r == 0.0
  {
    DivBelowOne(x - lo, hi - lo + Eps);
    (x - lo) / (hi - lo + Eps)
  }

  /** A non-negative value over a larger one lies in [0, 1). */
  lemma DivBelowOne(a: real, b: real)
    requires 0.0 <= a < b
    ensures 0.0 <= a / b < 1.0
  {
  }

  /** Normalisation preserves order: a smaller entry never gets a larger value. */
  lemma MinMaxMonotone(col: Column, i: nat, j: nat)
    requires i < |col| && j < |col|
    requires col[i].Some? && col[j].Some? && col[i].value <= col[j].value
    ensures MinMax(col)[i].Some? && MinMax(col)[j].Some?
    ensures MinMax(col)[i].value <= MinMax(col)[j].value
  {
    var lo, hi := ColMin(col), ColMax(col);
    var d := hi.value - lo.value + Eps;
    assert MinMax(col)[i].value == (col[i].value - lo.value) / d;
    assert MinMax(col)[j].value == (col[j].value - lo.value) / d;
    DivMonotone(col[i].value - lo.value, col[j].value - lo.value, d);
  }

  /** Division by a positive number preserves order. */
  lemma DivMonotone(a: real, b: real, d: real)
    requires a <= b && d > 0.0
    ensures a / d <= b / d
  {
  }

  /** A column whose defined values are all equal normalises to 0 in every
      defined row (not to NaN or infinity). */
  lemma MinMaxConstant(col: Column, c: real)
    requires forall i :: 0 <= i < |col| && col[i].Some? ==> col[i].value == c
    ensures forall i :: 0 <= i < |col| && col[i].Some? ==> MinMax(col)[i] == Some(0.0)
  {
    var lo := ColMin(col);
    forall i | 0 <= i < |col| && col[i].Some?
      ensures MinMax(col)[i] == Some(0.0)
    {
      var k :| 0 <= k < |col| && col[k] == lo;
      assert col[i].value == lo.value;
    }
  }

  /** Every defined value of `c2` also occurs in `c1`: the extrema of `c1`
      are at least as extreme. */
  lemma ExtremaOfSubset(c1: Column, c2: Column)
    requires forall v :: Some(v) in c2 ==> Some(v) in c1
    ensures ColMin(c2).Some? ==> ColMin(c1).Some? && ColMin(c1).value <= ColMin(c2).value
    ensures ColMax(c2).Some? ==> ColMax(c1).Some? && ColMax(c2).value <= ColMax(c1).value
  {
    var lo2, hi2 := ColMin(c2), ColMax(c2);
    if lo2.Some? {
      var k :| 0 <= k < |c2| && c2[k] == lo2;
      assert Some(lo2.value) in c2;
      var m :| 0 <= m < |c1| && c1[m] == Some(lo2.value);
    }
    if hi2.Some? {
      var k :| 0 <= k < |c2| && c2[k] == hi2;
      assert Some(hi2.value) in c2;
      var m :| 0 <= m < |c1| && c1[m] == Some(hi2.value);
    }
  }

  /** The minimum and maximum depend only on the set of defined values. */
  lemma ExtremaByValues(c1: Column, c2: Column)
    requires forall v :: Some(v) in c1 <==> Some(v) in c2
    ensures ColMin(c1) == ColMin(c2) && ColMax(c1) == ColMax(c2)
  {
    ExtremaOfSubset(c1, c2);
    ExtremaOfSubset(c2, c1);
  }

  /** Min and max skip missing values: inserting a missing entry into a column
      leaves every other entry's normalised value unchanged. */
  lemma MinMaxIgnoresMissing(a: Column, b: Column)
    ensures MinMax(a + [None] + b) == MinMax(a + b)[..|a|] + [None] + MinMax(a + b)[|a|..]
  {
    var c1, c2 := a + [None] + b, a + b;
    SpliceExtrema(a, b);
    var m1, m2 := MinMax(c1), MinMax(c2);
    var r := m2[..|a|] + [None] + m2[|a|..];
    assert |m1| == |r|;
    forall i | 0 <= i < |m1| ensures m1[i] == r[i] {
      if i < |a| {
        SameEntry(c1, c2, i, i);
      } else if i > |a| {
        SameEntry(c1, c2, i, i - 1);
      }
    }
  }

  /** Inserting a missing entry leaves the extrema as they are. */
  lemma SpliceExtrema(a: Column, b: Column)
    ensures ColMin(a + [None] + b) == ColMin(a + b) && ColMax(a + [None] + b) == ColMax(a + b)
  {
    var c1, c2 := a + [None] + b, a + b;
    forall v ensures Some(v) in c1 <==> Some(v) in c2 {
      calc {
        Some(v) in c1;
        Some(v) in a || Some(v) in [None] || Some(v) in b;
        Some(v) in a || Some(v) in b;
        Some(v) in c2;
      }
    }
    ExtremaByValues(c1, c2);
  }

  /** Equal entries of two columns with the same extrema normalise alike. */
  lemma SameEntry(c1: Column, c2: Column, i: nat, j: nat)
    requires i < |c1| && j < |c2| && c1[i] == c2[j]
    requires ColMin(c1) == ColMin(c2) && ColMax(c1) == ColMax(c2)
    ensures MinMax(c1)[i] == MinMax(c2)[j]
  {
  }

  // ---------------------------------------------------------------------------
  // Coercion, clipping and the metric columns.
  // ---------------------------------------------------------------------------

  /** Clip a defined value into [0, 1]; a missing value stays missing. */
  function Clip01(v: Option<real>): (r: Option<real>)
    ensures r.Some? <==> v.Some?
    ensures r.Some? ==> 0.0 <= r.value <= 1.0
    ensures r.Some? && 0.0 <= v.value <= 1.0 ==> r.value == v.value
    ensures r.Some? && v.value < 0.0 ==> r.value == 0.0
    ensures r.Some? && v.value > 1.0 ==> r.value == 1.0
  {
    match v
    case None => None
    case Some(x) => Some(if x < 0.0 then 0.0 else if x > 1.0 then 1.0 else x)
  }

  /** Unary minus, propagating NaN. */
  function Negate(v: Option<real>): (r: Option<real>)
    ensures r.Some? <==> v.Some?
    ensures r.Some? ==> r.value + v.value == 0.0
  {
    match v
    case None => None
    case Some(x) => Some(-x)
  }

  /** `log1p`, undefined below -1. */
  function Log1p(log1p: real -> real, v: Option<real>): (r: Option<real>)
    ensures r.Some? <==> v.Some? && v.value > -1.0
    ensures r.Some? ==> r.value == log1p(v.value)
  {
    match v
    case Some(x) => if x > -1.0 then Some(log1p(x)) else None
    case None => None
  }

  /** A row as it appears in the output: its on-time rate clipped. */
  function Coerce(s: Supplier): (r: Supplier)
    ensures r.id == s.id && r.name == s.name
    ensures r.costVariance == s.costVariance && r.qualityPpm == s.qualityPpm && r.riskEvents == s.riskEvents
    ensures r.otd.Some? <==> s.otd.Some?
    ensures r.otd.Some? ==> 0.0 <= r.otd.value <= 1.0
  {
    s.(otd := Clip01(s.otd))
  }

  /** One metric of every row, as a column. */
  function Col(rows: seq<Supplier>, metric: Supplier -> Option<real>): (c: Column)
    ensures |c| == |rows|
    ensures forall i :: 0 <= i < |rows| ==> c[i] == metric(rows[i])
  {
    seq(|rows|, i requires 0 <= i < |rows| => metric(rows[i]))
  }

  /** The on-time rate, clipped: higher is better. */
  function OtdMetric(s: Supplier): (r: Option<real>)
    ensures r.Some? <==> s.otd.Some?
    ensures r.Some? ==> 0.0 <= r.value <= 1.0
  {
    Clip01(s.otd)
  }

  /** The negated cost variance. */
  function CostMetric(s: Supplier): (r: Option<real>)
    ensures r.Some? <==> s.costVariance.Some?
    ensures r.Some? ==> r.value == -s.costVariance.value
  {
    Negate(s.costVariance)
  }

  /** The negated `log1p` of the defect rate. */
  function QualityMetric(log1p: real -> real): Supplier -> Option<real>
  {
    (s: Supplier) => Negate(Log1p(log1p, s.qualityPpm))
  }

  /** The negated count of risk events. */
  function RiskMetric(s: Supplier): (r: Option<real>)
    ensures r.Some? <==> s.riskEvents.Some?
    ensures r.Some? ==> r.value == -s.riskEvents.value
  {
    Negate(s.riskEvents)
  }

  /** The quality metric is defined exactly for a parsed defect rate above -1,
      where it is the negated `log1p`. */
  lemma QualityMetricAt(log1p: real -> real, s: Supplier)
    ensures QualityMetric(log1p)(s).Some? <==> s.qualityPpm.Some? && s.qualityPpm.value > -1.0
    ensures QualityMetric(log1p)(s).Some? ==> QualityMetric(log1p)(s).value == -log1p(s.qualityPpm.value)
  {
  }

  /** The `OtdMetric` column. */
  function OtdColumn(rows: seq<Supplier>): (c: Column)
    ensures |c| == |rows|
  {
    Col(rows, OtdMetric)
  }

  /** The `CostMetric` column. */
  function CostColumn(rows: seq<Supplier>): (c: Column)
    ensures |c| == |rows|
  {
    Col(rows, CostMetric)
  }

  /** The `QualityMetric` column. */
  function QualityColumn(rows: seq<Supplier>, log1p: real -> real): (c: Column)
    ensures |c| == |rows|
  {
    Col(rows, QualityMetric(log1p))
  }

  /** The `RiskMetric` column. */
  function RiskColumn(rows: seq<Supplier>): (c: Column)
    ensures |c| == |rows|
  {
    Col(rows, RiskMetric)
  }

  /** Splicing a row into the table splices its metric into every column. */
  lemma ColSplice(a: seq<Supplier>, x: Supplier, b: seq<Supplier>, metric: Supplier -> Option<real>)
    ensures Col(a + [x] + b, metric) == Col(a, metric) + [metric(x)] + Col(b, metric)
    ensures Col(a + b, metric) == Col(a, metric) + Col(b, metric)
  {
    var l, r := Col(a + [x] + b, metric), Col(a, metric) + [metric(x)] + Col(b, metric);
    assert |l| == |r|;
    forall i | 0 <= i < |l| ensures l[i] == r[i] {
      if i < |a| {
        assert (a + [x] + b)[i] == a[i];
      } else if i > |a| {
        assert (a + [x] + b)[i] == b[i - |a| - 1];
      }
    }
    var l2, r2 := Col(a + b, metric), Col(a, metric) + Col(b, metric);
    assert |l2| == |r2|;
    forall i | 0 <= i < |l2| ensures l2[i] == r2[i] {
      if i < |a| {
        assert (a + b)[i] == a[i];
      } else {
        assert (a + b)[i] == b[i - |a|];
      }
    }
  }

  // ---------------------------------------------------------------------------
  // The weighted score.
  // ---------------------------------------------------------------------------

  /** The weighted sum of four normalised values; undefined if any is. */
  function Combine(w: Weights, a: Option<real>, b: Option<real>, c: Option<real>, e: Option<real>): (r: Option<real>)
    ensures r.Some? <==> a.Some? && b.Some? && c.Some? && e.Some?
  {
    if a.Some? && b.Some? && c.Some? && e.Some? then
      Some(w.otd * a.value + w.cost * b.value + w.qual * c.value + w.risk * e.value)
    else None
  }

  /** The score of every row before rounding. */
  function RawScores(rows: seq<Supplier>, w: Weights, log1p: real -> real): (r: Column)
    ensures |r| == |rows|
  {
    var a, b, c, e := MinMax(OtdColumn(rows)), MinMax(CostColumn(rows)),
                      MinMax(QualityColumn(rows, log1p)), MinMax(RiskColumn(rows));
    seq(|rows|, i requires 0 <= i < |rows| => Combine(w, a[i], b[i], c[i], e[i]))
  }

  /** Round half to even to an integer. */
  function RoundHalfEven(y: real): (n: int)
    ensures y - 0.5 <= n as real <= y + 0.5
    ensures (n as real == y - 0.5 || n as real == y + 0.5) ==> n % 2 == 0
  {
    var f := y.Floor;
    var frac := y - f as real;
    if frac < 0.5 then f
    else if frac > 0.5 then f + 1
    else if f % 2 == 0 then f else f + 1
  }

  /** Rounding to four decimals, ties to even. */
  function Round4(x: real): (r: real)
    ensures x - 0.00005 <= r <= x + 0.00005
  {
    RoundHalfEven(x * 10000.0) as real / 10000.0
  }

  lemma RoundHalfEvenMonotone(y1: real, y2: real)
    requires y1 <= y2
    ensures RoundHalfEven(y1) <= RoundHalfEven(y2)
  {
  }

  /** Rounding never inverts the order of two scores. */
  lemma Round4Monotone(x1: real, x2: real)
    requires x1 <= x2
    ensures Round4(x1) <= Round4(x2)
  {
    RoundHalfEvenMonotone(x1 * 10000.0, x2 * 10000.0);
  }

  lemma Round4Zero()
    ensures Round4(0.0) == 0.0
  {
    assert RoundHalfEven(0.0) == 0;
  }

  function RoundScore(v: Option<real>): (r: Option<real>)
    ensures r.Some? <==> v.Some?
    ensures r.Some? ==> v.value - 0.00005 <= r.value <= v.value + 0.00005
  {
    match v
    case None => None
    case Some(x) => Some(Round4(x))
  }

  /** The rounded score of every row. */
  function Scores(rows: seq<Supplier>, w: Weights, log1p: real -> real): (r: Column)
    ensures |r| == |rows|
  {
    var raw := RawScores(rows, w, log1p);
    seq(|rows|, i requires 0 <= i < |rows| => RoundScore(raw[i]))
  }

  /** The rounded score of one row. */
  lemma ScoreAt(rows: seq<Supplier>, w: Weights, log1p: real -> real, i: nat)
    requires i < |rows|
    ensures Scores(rows, w, log1p)[i] == RoundScore(RawScores(rows, w, log1p)[i])
  {
  }

  /** Every row, coerced, with its score, in input order. */
  function ScoredRows(rows: seq<Supplier>, w: Weights, log1p: real -> real): (r: seq<Scored>)
    ensures |r| == |rows|
    ensures forall i :: 0 <= i < |r| ==> r[i].supplier == Coerce(rows[i]) && Clipped(r[i])
  {
    var sc := Scores(rows, w, log1p);
    seq(|rows|, i requires 0 <= i < |rows| => Scored(Coerce(rows[i]), sc[i]))
  }

  // ---------------------------------------------------------------------------
  // Sorting by score, descending, undefined scores last.
  // ---------------------------------------------------------------------------

  /** `a` may precede `b` in a descending order that puts undefined scores last. */
  predicate AtLeast(a: Option<real>, b: Option<real>)
  {
    b.None? || (a.Some? && a.value >= b.value)
  }

  predicate SortedByScore(s: seq<Scored>)
  {
    forall i, j :: 0 <= i < j < |s| ==> AtLeast(s[i].score, s[j].score)
  }

  function Insert(x: Scored, s: seq<Scored>): (r: seq<Scored>)
    requires SortedByScore(s)
    ensures SortedByScore(r)
    ensures multiset(r) == multiset(s) + multiset{x}
  {
    if s == [] then [x]
    else if AtLeast(x.score, s[0].score) then [x] + s
    else
      var rest := Insert(x, s[1..]);
      assert s == [s[0]] + s[1..];
      forall k | 0 <= k < |rest| ensures AtLeast(s[0].score, rest[k].score) {
        assert rest[k] in multiset(rest);
        if rest[k] != x {
          assert rest[k] in multiset(s[1..]);
          var m :| 0 <= m < |s[1..]| && s[1..][m] == rest[k];
          assert s[m + 1] == rest[k];
        }
      }
      ConsSorted(s[0], rest);
      [s[0]] + rest
  }

  lemma ConsSorted(h: Scored, t: seq<Scored>)
    requires SortedByScore(t)
    requires forall k :: 0 <= k < |t| ==> AtLeast(h.score, t[k].score)
    ensures SortedByScore([h] + t)
  {
    var r := [h] + t;
    forall i, j | 0 <= i < j < |r| ensures AtLeast(r[i].score, r[j].score) {
      if i > 0 {
        assert r[i] == t[i - 1] && r[j] == t[j - 1];
      } else {
        assert r[j] == t[j - 1];
      }
    }
  }

  function SortByScore(s: seq<Scored>): (r: seq<Scored>)
    ensures SortedByScore(r)
    ensures multiset(r) == multiset(s)
    ensures |r| == |s|
  {
    if s == [] then []
    else
      assert s == [s[0]] + s[1..];
      Insert(s[0], SortByScore(s[1..]))
  }

  /** `supplier_scores`: every input row, coerced and scored, ordered by
      score descending with the undefined scores last. */
  function SupplierScores(rows: seq<Supplier>, w: Weights, log1p: real -> real): (r: seq<Scored>)
    ensures |r| == |rows|
    ensures multiset(r) == multiset(ScoredRows(rows, w, log1p))
    ensures forall i, j :: 0 <= i < j < |r| && r[j].score.Some? ==>
              r[i].score.Some? && r[i].score.value >= r[j].score.value
    ensures forall i, j :: 0 <= i < j < |r| && r[i].score.None? ==> r[j].score.None?
    ensures forall i :: 0 <= i < |r| ==> Clipped(r[i])
  {
    var t := ScoredRows(rows, w, log1p);
    var r := SortByScore(t);
    ClippedKept(t, r);
    r
  }

  /** The on-time rate of a row, if it parsed, lies in [0, 1]. */
  predicate Clipped(x: Scored)
  {
    x.supplier.otd.Some? ==> 0.0 <= x.supplier.otd.value <= 1.0
  }

  /** A permutation of clipped rows holds only clipped rows. */
  lemma ClippedKept(t: seq<Scored>, r: seq<Scored>)
    requires multiset(r) == multiset(t)
    requires forall k :: 0 <= k < |t| ==> Clipped(t[k])
    ensures forall i :: 0 <= i < |r| ==> Clipped(r[i])
  {
    forall i | 0 <= i < |r| ensures Clipped(r[i]) {
      assert r[i] in multiset(t);
      var k :| 0 <= k < |t| && t[k] == r[i];
    }
  }

  // ---------------------------------------------------------------------------
  // Properties of the score.
  // ---------------------------------------------------------------------------

  ghost predicate Increasing(log1p: real -> real)
  {
    forall x, y :: -1.0 < x <= y ==> log1p(x) <= log1p(y)
  }

  predicate NonNegative(w: Weights)
  {
    w.otd >= 0.0 && w.cost >= 0.0 && w.qual >= 0.0 && w.risk >= 0.0
  }

  function WeightSum(w: Weights): real
  {
    w.otd + w.cost + w.qual + w.risk
  }

  /** Every metric parsed, and the defect rate inside the domain of `log1p`. */
  predicate Numeric(s: Supplier)
  {
    s.otd.Some? && s.costVariance.Some? && s.qualityPpm.Some? && s.qualityPpm.value > -1.0 && s.riskEvents.Some?
  }

  /** `a` is no worse than `b` on every metric: on-time rate at least as high,
      cost variance, defect rate and risk events at most as high. */
  predicate NoWorse(a: Supplier, b: Supplier)
    requires Numeric(a) && Numeric(b)
  {
    && a.otd.value >= b.otd.value
    && a.costVariance.value <= b.costVariance.value
    && a.qualityPpm.value <= b.qualityPpm.value
    && a.riskEvents.value <= b.riskEvents.value
  }

  lemma {:induction false} Clip01Monotone(u: real, v: real)
    requires u <= v
    ensures Clip01(Some(u)).value <= Clip01(Some(v)).value
  {
  }

  /** A row's score is defined exactly when all of its metrics are numeric. */
  lemma ScoreDefined(rows: seq<Supplier>, w: Weights, log1p: real -> real, i: nat)
    requires i < |rows|
    ensures RawScores(rows, w, log1p)[i].Some? <==> Numeric(rows[i])
    ensures Scores(rows, w, log1p)[i].Some? <==> Numeric(rows[i])
  {
  }

  /** The unrounded score of one row, as the weighted sum of its four
      normalised metrics. */
  lemma RawScoreAt(rows: seq<Supplier>, w: Weights, log1p: real -> real, i: nat)
    requires i < |rows|
    ensures RawScores(rows, w, log1p)[i] ==
      Combine(w, MinMax(OtdColumn(rows))[i], MinMax(CostColumn(rows))[i],
              MinMax(QualityColumn(rows, log1p))[i], MinMax(RiskColumn(rows))[i])
  {
  }

  /** With non-negative weights the weighted sum is monotone in each value. */
  lemma CombineMonotone(w: Weights, a1: real, b1: real, c1: real, e1: real,
                        a2: real, b2: real, c2: real, e2: real)
    requires NonNegative(w)
    requires a1 <= a2 && b1 <= b2 && c1 <= c2 && e1 <= e2
    ensures Combine(w, Some(a1), Some(b1), Some(c1), Some(e1)).value
         <= Combine(w, Some(a2), Some(b2), Some(c2), Some(e2)).value
  {
    assert w.otd * a1 <= w.otd * a2;
    assert w.cost * b1 <= w.cost * b2;
    assert w.qual * c1 <= w.qual * c2;
    assert w.risk * e1 <= w.risk * e2;
  }

  /** With non-negative weights and values in [0, 1), the weighted sum lies
      in [0, sum of weights], strictly below it when some weight is positive. */
  lemma CombineBounds(w: Weights, a: real, b: real, c: real, e: real)
    requires NonNegative(w)
    requires 0.0 <= a < 1.0 && 0.0 <= b < 1.0 && 0.0 <= c < 1.0 && 0.0 <= e < 1.0
    ensures 0.0 <= Combine(w, Some(a), Some(b), Some(c), Some(e)).value <= WeightSum(w)
    ensures WeightSum(w) > 0.0 ==> Combine(w, Some(a), Some(b), Some(c), Some(e)).value < WeightSum(w)
  {
    var p1, p2, p3, p4 := w.otd * a, w.cost * b, w.qual * c, w.risk * e;
    WeightedBounds(w.otd, a, p1);
    WeightedBounds(w.cost, b, p2);
    WeightedBounds(w.qual, c, p3);
    WeightedBounds(w.risk, e, p4);
    assert Combine(w, Some(a), Some(b), Some(c), Some(e)).value == p1 + p2 + p3 + p4;
    TermsWithinWeights(p1, p2, p3, p4, w.otd, w.cost, w.qual, w.risk);
  }

  /** Four terms each in [0, its weight], strictly below it for a positive weight. */
  lemma TermsWithinWeights(p1: real, p2: real, p3: real, p4: real, w1: real, w2: real, w3: real, w4: real)
    requires 0.0 <= p1 <= w1 && 0.0 <= p2 <= w2 && 0.0 <= p3 <= w3 && 0.0 <= p4 <= w4
    requires (w1 > 0.0 ==> p1 < w1) && (w2 > 0.0 ==> p2 < w2) && (w3 > 0.0 ==> p3 < w3) && (w4 > 0.0 ==> p4 < w4)
    ensures 0.0 <= p1 + p2 + p3 + p4 <= w1 + w2 + w3 + w4
    ensures w1 + w2 + w3 + w4 > 0.0 ==> p1 + p2 + p3 + p4 < w1 + w2 + w3 + w4
  {
    if w1 + w2 + w3 + w4 > 0.0 {
      if w1 > 0.0 {
      } else if w2 > 0.0 {
      } else if w3 > 0.0 {
      } else {
        assert w4 > 0.0;
      }
    }
  }

  /** A non-negative weight times a value in [0, 1). */
  lemma WeightedBounds(w: real, x: real, p: real)
    requires w >= 0.0 && 0.0 <= x < 1.0 && p == w * x
    ensures 0.0 <= p <= w
    ensures w > 0.0 ==> p < w
  {
    assert w * (1.0 - x) >= 0.0;
    assert w * (1.0 - x) == w - w * x;
    if w > 0.0 {
      assert w * (1.0 - x) > 0.0;
    }
  }

  /** With non-negative weights, a supplier no worse than another on every
      metric gets a score at least as high, before and after rounding. */
  lemma Dominance(rows: seq<Supplier>, w: Weights, log1p: real -> real, i: nat, j: nat)
    requires NonNegative(w) && Increasing(log1p)
    requires i < |rows| && j < |rows| && Numeric(rows[i]) && Numeric(rows[j])
    requires NoWorse(rows[i], rows[j])
    ensures RawScores(rows, w, log1p)[i].Some? && RawScores(rows, w, log1p)[j].Some?
    ensures RawScores(rows, w, log1p)[i].value >= RawScores(rows, w, log1p)[j].value
    ensures Scores(rows, w, log1p)[i].Some? && Scores(rows, w, log1p)[j].Some?
    ensures Scores(rows, w, log1p)[i].value >= Scores(rows, w, log1p)[j].value
  {
    var oc, cc, qc, rc := OtdColumn(rows), CostColumn(rows), QualityColumn(rows, log1p), RiskColumn(rows);
    Clip01Monotone(rows[j].otd.value, rows[i].otd.value);
    MinMaxMonotone(oc, j, i);
    MinMaxMonotone(cc, j, i);
    assert log1p(rows[i].qualityPpm.value) <= log1p(rows[j].qualityPpm.value);
    MinMaxMonotone(qc, j, i);
    MinMaxMonotone(rc, j, i);
    var a, b, c, e := MinMax(oc), MinMax(cc), MinMax(qc), MinMax(rc);
    RawScoreAt(rows, w, log1p, i);
    RawScoreAt(rows, w, log1p, j);
    CombineMonotone(w, a[j].value, b[j].value, c[j].value, e[j].value,
                    a[i].value, b[i].value, c[i].value, e[i].value);
    var raw := RawScores(rows, w, log1p);
    Round4Monotone(raw[j].value, raw[i].value);
  }

  /** With non-negative weights, a defined score before rounding lies in
      [0, sum of weights), or is 0 when every weight is 0. */
  lemma ScoreBounds(rows: seq<Supplier>, w: Weights, log1p: real -> real, i: nat)
    requires NonNegative(w) && i < |rows| && Numeric(rows[i])
    ensures RawScores(rows, w, log1p)[i].Some?
    ensures 0.0 <= RawScores(rows, w, log1p)[i].value <= WeightSum(w)
    ensures WeightSum(w) > 0.0 ==> RawScores(rows, w, log1p)[i].value < WeightSum(w)
  {
    var a, b, c, e := MinMax(OtdColumn(rows)), MinMax(CostColumn(rows)),
                      MinMax(QualityColumn(rows, log1p)), MinMax(RiskColumn(rows));
    RawScoreAt(rows, w, log1p, i);
    CombineBounds(w, a[i].value, b[i].value, c[i].value, e[i].value);
  }

  /** A row none of whose metrics parsed. */
  predicate Unparsed(s: Supplier)
  {
    s.otd.None? && s.costVariance.None? && s.qualityPpm.None? && s.riskEvents.None?
  }

  /** Splicing a row whose metric is missing into the table splices a
      missing value into that metric's normalised column and changes nothing else. */
  lemma SpliceMinMax(a: seq<Supplier>, x: Supplier, b: seq<Supplier>, metric: Supplier -> Option<real>)
    requires metric(x).None?
    ensures MinMax(Col(a + [x] + b, metric)) ==
      MinMax(Col(a + b, metric))[..|a|] + [None] + MinMax(Col(a + b, metric))[|a|..]
  {
    ColSplice(a, x, b, metric);
    MinMaxIgnoresMissing(Col(a, metric), Col(b, metric));
  }

  /** Two rows that have the same four normalised metrics get the same score. */
  lemma SameNormalisedSameScore(rows1: seq<Supplier>, i: nat, rows2: seq<Supplier>, j: nat, w: Weights, log1p: real -> real)
    requires i < |rows1| && j < |rows2|
    requires MinMax(OtdColumn(rows1))[i] == MinMax(OtdColumn(rows2))[j]
    requires MinMax(CostColumn(rows1))[i] == MinMax(CostColumn(rows2))[j]
    requires MinMax(QualityColumn(rows1, log1p))[i] == MinMax(QualityColumn(rows2, log1p))[j]
    requires MinMax(RiskColumn(rows1))[i] == MinMax(RiskColumn(rows2))[j]
    ensures Scores(rows1, w, log1p)[i] == Scores(rows2, w, log1p)[j]
  {
    RawScoreAt(rows1, w, log1p, i);
    RawScoreAt(rows2, w, log1p, j);
  }

  /** Min and max skip missing values, so adding a row none of whose metrics
      parsed gives that row no score and leaves every other row's score as it was. */
  lemma ScoresIgnoreUnparsed(a: seq<Supplier>, x: Supplier, b: seq<Supplier>, w: Weights, log1p: real -> real)
    requires Unparsed(x)
    ensures Scores(a + [x] + b, w, log1p) ==
      Scores(a + b, w, log1p)[..|a|] + [None] + Scores(a + b, w, log1p)[|a|..]
  {
    var rows1, rows2 := a + [x] + b, a + b;
    SpliceMinMax(a, x, b, OtdMetric);
    SpliceMinMax(a, x, b, CostMetric);
    SpliceMinMax(a, x, b, QualityMetric(log1p));
    SpliceMinMax(a, x, b, RiskMetric);
    var s1, s2 := Scores(rows1, w, log1p), Scores(rows2, w, log1p);
    var r := s2[..|a|] + [None] + s2[|a|..];
    assert |s1| == |r|;
    forall i | 0 <= i < |s1| ensures s1[i] == r[i] {
      if i < |a| {
        SameNormalisedSameScore(rows1, i, rows2, i, w, log1p);
      } else if i > |a| {
        SameNormalisedSameScore(rows1, i, rows2, i - 1, w, log1p);
      } else {
        ScoreDefined(rows1, w, log1p, i);
      }
    }
  }

  /** A two-entry column whose first entry is larger. */
  lemma MinMaxPair(p: real, q: real)
    requires p > q
    ensures MinMax([Some(p), Some(q)]) == [Some((p - q) / (p - q + Eps)), Some(0.0)]
    ensures (p - q) / (p - q + Eps) > 0.0
  {
    var col := [Some(p), Some(q)];
    assert ColMin(col) == Some(q) by {
      assert ColMin(col[1..]) == Some(q) by { assert col[1..][1..] == []; }
    }
    assert ColMax(col) == Some(p) by {
      assert ColMax(col[1..]) == Some(q) by { assert col[1..][1..] == []; }
    }
  }

  /** The two suppliers of the ranking example: on-time rate 0.95 against
      0.80, cost variance 0.01 against 0.05, 100 against 900 defects per
      million, 0 against 3 risk events. */
  predicate ExamplePair(s1: Supplier, s2: Supplier)
  {
    && s1.otd == Some(0.95) && s1.costVariance == Some(0.01) && s1.qualityPpm == Some(100.0) && s1.riskEvents == Some(0.0)
    && s2.otd == Some(0.80) && s2.costVariance == Some(0.05) && s2.qualityPpm == Some(900.0) && s2.riskEvents == Some(3.0)
  }

  /** The weights the scorecard starts with. */
  const DefaultWeights := Weights(0.4, 0.2, 0.25, 0.15)

  // In the example the better supplier normalises above 0 on every metric
  // (above 0.99 on the on-time rate) and the worse one to 0 on every metric.

  lemma ExampleOtd(s1: Supplier, s2: Supplier)
    requires ExamplePair(s1, s2)
    ensures var m := MinMax(OtdColumn([s1, s2])); m[0].Some? && m[0].value > 0.99 && m[1] == Some(0.0)
  {
    assert OtdColumn([s1, s2]) == [Some(0.95), Some(0.80)];
    MinMaxPair(0.95, 0.80);
    assert 0.15 / (0.15 + Eps) > 0.99;
  }

  lemma ExampleCost(s1: Supplier, s2: Supplier)
    requires ExamplePair(s1, s2)
    ensures var m := MinMax(CostColumn([s1, s2])); m[0].Some? && m[0].value > 0.0 && m[1] == Some(0.0)
  {
    assert CostColumn([s1, s2]) == [Some(-0.01), Some(-0.05)];
    MinMaxPair(-0.01, -0.05);
  }

  lemma ExampleQuality(s1: Supplier, s2: Supplier, log1p: real -> real)
    requires ExamplePair(s1, s2) && log1p(100.0) < log1p(900.0)
    ensures var m := MinMax(QualityColumn([s1, s2], log1p)); m[0].Some? && m[0].value > 0.0 && m[1] == Some(0.0)
  {
    QualityMetricAt(log1p, s1);
    QualityMetricAt(log1p, s2);
    assert QualityColumn([s1, s2], log1p) == [Some(-log1p(100.0)), Some(-log1p(900.0))];
    MinMaxPair(-log1p(100.0), -log1p(900.0));
  }

  lemma ExampleRisk(s1: Supplier, s2: Supplier)
    requires ExamplePair(s1, s2)
    ensures var m := MinMax(RiskColumn([s1, s2])); m[0].Some? && m[0].value > 0.0 && m[1] == Some(0.0)
  {
    assert RiskColumn([s1, s2]) == [Some(0.0), Some(-3.0)];
    MinMaxPair(0.0, -3.0);
  }

  /** In the example the worse supplier scores 0 and the better one above 0.39. */
  lemma ExampleScores(s1: Supplier, s2: Supplier, log1p: real -> real)
    requires ExamplePair(s1, s2) && log1p(100.0) < log1p(900.0)
    ensures RawScores([s1, s2], DefaultWeights, log1p)[0].Some?
    ensures RawScores([s1, s2], DefaultWeights, log1p)[0].value > 0.39
    ensures RawScores([s1, s2], DefaultWeights, log1p)[1] == Some(0.0)
  {
    ExampleOtd(s1, s2);
    ExampleCost(s1, s2);
    ExampleQuality(s1, s2, log1p);
    ExampleRisk(s1, s2);
    RawScoreAt([s1, s2], DefaultWeights, log1p, 0);
    RawScoreAt([s1, s2], DefaultWeights, log1p, 1);
  }

  /** In the example the better supplier's rounded score is positive and the
      worse one's is 0. */
  lemma ExampleRounded(s1: Supplier, s2: Supplier, log1p: real -> real)
    requires ExamplePair(s1, s2) && log1p(100.0) < log1p(900.0)
    ensures var sc := Scores([s1, s2], DefaultWeights, log1p);
      sc[0].Some? && sc[0].value > 0.0 && sc[1] == Some(0.0)
  {
    ExampleScores(s1, s2, log1p);
    ScoreAt([s1, s2], DefaultWeights, log1p, 0);
    ScoreAt([s1, s2], DefaultWeights, log1p, 1);
    Round4Zero();
  }

  /** The example under the default weights 0.4 / 0.2 / 0.25 / 0.15: the
      better supplier is ranked first, strictly above the other. */
  lemma BetterSupplierRanksFirst(s1: Supplier, s2: Supplier, log1p: real -> real)
    requires ExamplePair(s1, s2) && log1p(100.0) < log1p(900.0)
    ensures var r := SupplierScores([s1, s2], DefaultWeights, log1p);
      && r[0].supplier == s1 && r[1].supplier == s2
      && r[0].score.Some? && r[1].score.Some? && r[0].score.value > r[1].score.value
  {
    ExampleRounded(s1, s2, log1p);
    var sc := Scores([s1, s2], DefaultWeights, log1p);
    ExampleTable(s1, s2, log1p);
    SortPair(Scored(s1, sc[0]), Scored(s2, sc[1]));
  }

  /** The example's rows with their scores, before sorting; the clip leaves
      both on-time rates as they are. */
  lemma ExampleTable(s1: Supplier, s2: Supplier, log1p: real -> real)
    requires ExamplePair(s1, s2)
    ensures var sc := Scores([s1, s2], DefaultWeights, log1p);
      ScoredRows([s1, s2], DefaultWeights, log1p) == [Scored(s1, sc[0]), Scored(s2, sc[1])]
  {
    assert Coerce(s1) == s1 && Coerce(s2) == s2;
    CoercedPair(s1, s2, DefaultWeights, log1p);
  }

  /** Two rows the coercion leaves as they are, with their scores. */
  lemma CoercedPair(x: Supplier, y: Supplier, w: Weights, log1p: real -> real)
    requires Coerce(x) == x && Coerce(y) == y
    ensures ScoredRows([x, y], w, log1p) == [Scored(x, Scores([x, y], w, log1p)[0]), Scored(y, Scores([x, y], w, log1p)[1])]
  {
    ScoredRowAt([x, y], w, log1p, 0);
    ScoredRowAt([x, y], w, log1p, 1);
  }

  /** One row of the scored table, before sorting. */
  lemma ScoredRowAt(rows: seq<Supplier>, w: Weights, log1p: real -> real, i: nat)
    requires i < |rows|
    ensures ScoredRows(rows, w, log1p)[i] == Scored(Coerce(rows[i]), Scores(rows, w, log1p)[i])
  {
  }

  /** Two rows already in order stay in order. */
  lemma SortPair(x: Scored, y: Scored)
    requires AtLeast(x.score, y.score)
    ensures SortByScore([x, y]) == [x, y]
  {
    assert [x, y][1..] == [y];
    assert [y][1..] == [];
  }
}
