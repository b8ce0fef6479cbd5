/**
 * The inventory what-if simulator: a day-stepped state machine over stock on
 * hand, backlog and a pipeline of open replenishment orders, followed by the
 * fill-rate, stockout-day and average-on-hand aggregates over its rows.
 *
 * Calendar days are integers. The daily demand sequence, the safety threshold,
 * the minimum order quantity, the lead time and the history mean `mu` are
 * parameters: how the page derives them (a seeded normal draw, a standard
 * deviation) is not part of this model.
 */
module Simulator {

  /** An open replenishment order: `qty` units arrive on day `arrival`. */
  datatype Order = Order(arrival: int, qty: int)

  /** The reorder policy of one run. `safety` is the threshold on inventory
      position, `mu` the mean daily demand of the history. */
  datatype Policy = Policy(safety: real, moq: nat, lead: nat, mu: real)

  /** The simulation state between two days. */
  datatype State = State(onHand: real, backlog: real, pipe: seq<Order>)

  /** One recorded day of the simulation. */
  datatype Row = Row(day: int, demand: nat, onHand: real, backlog: real)

  const Init: State := State(0.0, 0.0, [])

  function Max(a: real, b: real): real { if a >= b then a else b }

  function Min(a: real, b: real): real { if a <= b then a else b }

  /** Python's `int()` on a float: truncation toward zero. */
  function Trunc(x: real): (r: int)
    ensures 0.0 <= x ==> 0 <= r && r as real <= x < r as real + 1.0
    ensures x < 0.0 ==> r <= 0 && r as real - 1.0 < x <= r as real
  {
    if x >= 0.0 then x.Floor else -((-x).Floor)
  }

  /** The size of every order the policy places: the larger of the minimum
      order quantity and the truncated expected lead-time demand. */
  function OrderQty(p: Policy): (q: int)
    ensures q >= p.moq && q >= Trunc(p.mu * p.lead as real)
    ensures q == p.moq || q == Trunc(p.mu * p.lead as real)
  {
    if p.moq >= Trunc(p.mu * p.lead as real) then p.moq else Trunc(p.mu * p.lead as real)
  }

  /** Total quantity of the pipeline, the quantity `ArrivalsConserve` keeps. */
  function Total(pipe: seq<Order>): int
  {
    if pipe == [] then 0 else pipe[0].qty + Total(pipe[1..])
  }

  /** Quantity of the orders arriving on day `d`. */
  function Arrivals(pipe: seq<Order>, d: int): int
  {
    if pipe == [] then 0
    else (if pipe[0].arrival == d then pipe[0].qty else 0) + Arrivals(pipe[1..], d)
  }

  /** The orders that stay in the pipeline after day `d`'s arrivals are received. */
  function Pending(pipe: seq<Order>, d: int): (r: seq<Order>)
    ensures |r| <= |pipe|
    ensures forall i :: 0 <= i < |r| ==> r[i].arrival != d
  {
    if pipe == [] then []
    else if pipe[0].arrival == d then Pending(pipe[1..], d)
    else [pipe[0]] + Pending(pipe[1..], d)
  }

  /** Receiving keeps exactly the orders not due on day `d`. */
  lemma {:induction false} PendingKeeps(pipe: seq<Order>, d: int)
    ensures forall o :: o in Pending(pipe, d) <==> o in pipe && o.arrival != d
  {
    if pipe != [] {
      PendingKeeps(pipe[1..], d);
      assert pipe == [pipe[0]] + pipe[1..];
    }
  }

  /** Step 1 of a day: receive the orders due on day `d`. */
  function Receive(s: State, d: int): State
  {
    State(s.onHand + Arrivals(s.pipe, d) as real, s.backlog, Pending(s.pipe, d))
  }

  /** Step 2 of a day: the reorder rule, checked once per day. */
  function Reorder(s: State, d: int, p: Policy): State
  {
    if s.onHand - s.backlog < p.safety then
      var q := OrderQty(p);
      if q > 0 then s.(pipe := s.pipe + [Order(d + p.lead, q)]) else s
    else s
  }

  /** What the shipment step can ship: the free stock, capped by backlog plus demand. */
  function Shipped(s: State, dem: nat): (x: real)
    ensures x <= Max(0.0, s.onHand - s.backlog) && x <= dem as real + s.backlog
    ensures x == Max(0.0, s.onHand - s.backlog) || x == dem as real + s.backlog
  {
    Min(Max(0.0, s.onHand - s.backlog), dem as real + s.backlog)
  }

  /** Step 3 of a day: ship against backlog plus today's demand. */
  function Ship(s: State, dem: nat): State
  {
    var shipped := Shipped(s, dem);
    if shipped >= s.backlog then
      var shippedNet := shipped - s.backlog;
      var onHand := Max(0.0, s.onHand - shippedNet);
      var unmet := dem as real - shippedNet;
      s.(onHand := onHand, backlog := Max(0.0, 0.0 + unmet))
    else
      s.(backlog := s.backlog - shipped)
  }

  /** One simulated day `d` with demand `dem`. */
  function Step(s: State, d: int, dem: nat, p: Policy): State
  {
    Ship(Reorder(Receive(s, d), d, p), dem)
  }

  /** The state after the days `ds`, the first of them day `d0`, starting from `s0`. */
  function Final(s0: State, d0: int, ds: seq<nat>, p: Policy): State
    decreases |ds|
  {
    if ds == [] then s0
    else Step(Final(s0, d0, ds[..|ds| - 1], p), d0 + |ds| - 1, ds[|ds| - 1], p)
  }

  /** The rows recorded over the days `ds`, the first of them day `d0`, starting from `s0`. */
  function Trace(s0: State, d0: int, ds: seq<nat>, p: Policy): seq<Row>
    decreases |ds|
  {
    if ds == [] then []
    else
      var s := Final(s0, d0, ds, p);
      Trace(s0, d0, ds[..|ds| - 1], p) + [Row(d0 + |ds| - 1, ds[|ds| - 1], s.onHand, s.backlog)]
  }

  /** A whole run: zero stock, no backlog and an empty pipeline, starting the
      day after the last history date. */
  function Run(p: Policy, lastDay: int, demand: seq<nat>): seq<Row>
  {
    Trace(Init, lastDay + 1, demand, p)
  }

  /** The state invariant at the start of day `d`: nothing negative, every open
      order positive and due within the next `lead` days (none overdue). */
  ghost predicate Valid(s: State, d: int, p: Policy)
  {
    && s.onHand >= 0.0 && s.backlog >= 0.0
    && forall i :: 0 <= i < |s.pipe| ==> s.pipe[i].qty > 0 && d <= s.pipe[i].arrival < d + p.lead
  }

  // ---------------------------------------------------------------------------
  // The imperative simulation loop.
  // ---------------------------------------------------------------------------

  /** Runs the simulation day by day, as the page does, and records one row per day. */
  method Simulate(demand: seq<nat>, lastDay: int, p: Policy) returns (rows: seq<Row>)
    requires p.lead >= 1
    ensures rows == Run(p, lastDay, demand)
    ensures |rows| == |demand|
    ensures forall i :: 0 <= i < |rows| ==> rows[i].day == lastDay + 1 + i && rows[i].demand == demand[i]
    ensures forall i :: 0 <= i < |rows| ==> rows[i].onHand >= 0.0 && rows[i].backlog >= 0.0
    ensures |rows| > 0 ==> rows[0].backlog <= rows[0].demand as real
    ensures forall i :: 1 <= i < |rows| ==> RiseWithinDemand(rows, i)
  {
    var onHand, backlog, pipe := 0.0, 0.0, [];
    rows := [];
    var i := 0;
    while i < |demand|
      invariant 0 <= i <= |demand|
      invariant State(onHand, backlog, pipe) == Final(Init, lastDay + 1, demand[..i], p)
      invariant rows == Trace(Init, lastDay + 1, demand[..i], p)
    {
      var d, dem := lastDay + 1 + i, demand[i];
      onHand, backlog, pipe := SimulateDay(onHand, backlog, pipe, d, dem, p);
      rows := rows + [Row(d, dem, onHand, backlog)];
      assert demand[..i + 1][..i] == demand[..i];
      i := i + 1;
    }
    assert demand[..i] == demand;
    TraceFacts(Init, lastDay + 1, demand, p);
  }

  /** One pass of the loop body on day `d` with demand `dem`: receive the
      orders due, apply the reorder rule, ship against backlog plus demand. */
  method SimulateDay(onHand0: real, backlog0: real, pipe0: seq<Order>, d: int, dem: nat, p: Policy)
    returns (onHand: real, backlog: real, pipe: seq<Order>)
    ensures State(onHand, backlog, pipe) == Step(State(onHand0, backlog0, pipe0), d, dem, p)
  {
    onHand, backlog, pipe := onHand0, backlog0, pipe0;
    // receive the orders due today
    var arrivals := Arrivals(pipe, d);
    pipe := Pending(pipe, d);
    onHand := onHand + arrivals as real;
    // reorder when the inventory position is below the threshold
    if onHand - backlog < p.safety {
      var orderQty := OrderQty(p);
      if orderQty > 0 {
        pipe := pipe + [Order(d + p.lead, orderQty)];
      }
    }
    // ship against backlog plus today's demand
    var available := Max(0.0, onHand - backlog);
    var shipped := Min(available, dem as real + backlog);
    if shipped >= backlog {
      var shippedNet := shipped - backlog;
      backlog := 0.0;
      onHand := Max(0.0, onHand - shippedNet);
      var unmet := dem as real - shippedNet;
      backlog := Max(0.0, backlog + unmet);
    } else {
      backlog := backlog - shipped;
    }
  }

  // ---------------------------------------------------------------------------
  // One day, step by step.
  // ---------------------------------------------------------------------------

  /** Receiving conserves quantity: what arrives plus what stays equals the old pipeline. */
  lemma {:induction false} ArrivalsConserve(pipe: seq<Order>, d: int)
    ensures Arrivals(pipe, d) + Total(Pending(pipe, d)) == Total(pipe)
  {
    if pipe != [] {
      ArrivalsConserve(pipe[1..], d);
    }
  }

  /** With positive order sizes nothing negative arrives. */
  lemma {:induction false} ArrivalsNonNegative(pipe: seq<Order>, d: int)
    requires forall i :: 0 <= i < |pipe| ==> pipe[i].qty > 0
    ensures Arrivals(pipe, d) >= 0
  {
    if pipe != [] {
      ArrivalsNonNegative(pipe[1..], d);
    }
  }

  /** The receive step: stock grows by exactly the day's arrivals, the pipeline
      loses exactly that quantity and keeps no order due that day. */
  lemma ReceiveStep(s: State, d: int)
    ensures Receive(s, d).onHand == s.onHand + Arrivals(s.pipe, d) as real
    ensures Total(s.pipe) == Arrivals(s.pipe, d) + Total(Receive(s, d).pipe)
    ensures forall o :: o in Receive(s, d).pipe ==> o.arrival != d && o in s.pipe
    ensures Receive(s, d).backlog == s.backlog
  {
    ArrivalsConserve(s.pipe, d);
    PendingKeeps(s.pipe, d);
  }

  /** The reorder step places an order iff the position is strictly below the
      threshold and the order size is positive; at most one order, of size
      `OrderQty(p)`, arriving `lead` days later (never the same day). */
  lemma ReorderStep(s: State, d: int, p: Policy)
    requires p.lead >= 1
    ensures var r := Reorder(s, d, p);
      && r.onHand == s.onHand && r.backlog == s.backlog
      && r.pipe[..|s.pipe|] == s.pipe
      && (|r.pipe| == |s.pipe| + 1 <==> s.onHand - s.backlog < p.safety && OrderQty(p) > 0)
      && (|r.pipe| == |s.pipe| || |r.pipe| == |s.pipe| + 1)
      && (|r.pipe| == |s.pipe| + 1 ==> r.pipe[|s.pipe|] == Order(d + p.lead, OrderQty(p)) && r.pipe[|s.pipe|].arrival > d)
  {
  }

  /** The shipment step when the shipment covers the backlog: the old backlog
      is cleared, stock falls by exactly the net shipment, and today's demand
      splits exactly into net shipment plus new backlog (both `max(0, _)`
      guards are no-ops). */
  lemma ShipCoversBacklog(s: State, dem: nat)
    requires s.onHand >= 0.0 && s.backlog >= 0.0
    requires Shipped(s, dem) >= s.backlog
    ensures var net := Shipped(s, dem) - s.backlog;
      && 0.0 <= net <= s.onHand
      && Ship(s, dem).onHand == s.onHand - net
      && Ship(s, dem).backlog == dem as real - net
      && dem as real == net + Ship(s, dem).backlog
      && Ship(s, dem).backlog >= 0.0
    ensures Ship(s, dem).pipe == s.pipe
  {
  }

  /** The shipment step when the shipment falls short of the backlog: stock is
      unchanged and the backlog drops by the shipment but stays positive;
      today's demand is not added to it. */
  lemma ShipShortOfBacklog(s: State, dem: nat)
    requires s.onHand >= 0.0 && s.backlog >= 0.0
    requires Shipped(s, dem) < s.backlog
    ensures Ship(s, dem).onHand == s.onHand
    ensures Ship(s, dem).backlog == s.backlog - Shipped(s, dem)
    ensures 0.0 < Ship(s, dem).backlog <= s.backlog
    ensures Ship(s, dem).pipe == s.pipe
  {
  }

  /** A day keeps the state invariant, and the backlog rises by at most the
      day's demand. */
  lemma StepPreservesValid(s: State, d: int, dem: nat, p: Policy)
    requires p.lead >= 1
    requires Valid(s, d, p)
    ensures Valid(Step(s, d, dem, p), d + 1, p)
    ensures Step(s, d, dem, p).backlog <= s.backlog + dem as real
  {
    var r := Receive(s, d);
    ArrivalsNonNegative(s.pipe, d);
    PendingKeeps(s.pipe, d);
    assert forall i :: 0 <= i < |r.pipe| ==> r.pipe[i] in s.pipe;
    var o := Reorder(r, d, p);
    ReorderStep(r, d, p);
    assert forall i :: 0 <= i < |o.pipe| ==> o.pipe[i].qty > 0 && d + 1 <= o.pipe[i].arrival < d + 1 + p.lead by {
      forall i | 0 <= i < |o.pipe|
        ensures o.pipe[i].qty > 0 && d + 1 <= o.pipe[i].arrival < d + 1 + p.lead
      {
        if i < |r.pipe| {
          assert o.pipe[i] == r.pipe[i];
          assert r.pipe[i] in s.pipe && r.pipe[i].arrival != d;
        }
      }
    }
    if Shipped(o, dem) >= o.backlog {
      ShipCoversBacklog(o, dem);
    } else {
      ShipShortOfBacklog(o, dem);
    }
  }

  /** On row `i` the backlog rose by at most that row's demand. */
  predicate RiseWithinDemand(rows: seq<Row>, i: int)
    requires 0 < i < |rows|
  {
    rows[i].backlog - rows[i - 1].backlog <= rows[i].demand as real
  }

  // ---------------------------------------------------------------------------
  // Whole runs.
  // ---------------------------------------------------------------------------

  /** The state invariant holds after every prefix of days. */
  lemma {:induction false} FinalValid(s0: State, d0: int, ds: seq<nat>, p: Policy)
    requires p.lead >= 1
    requires Valid(s0, d0, p)
    ensures Valid(Final(s0, d0, ds, p), d0 + |ds|, p)
    decreases |ds|
  {
    if ds != [] {
      FinalValid(s0, d0, ds[..|ds| - 1], p);
      StepPreservesValid(Final(s0, d0, ds[..|ds| - 1], p), d0 + |ds| - 1, ds[|ds| - 1], p);
    }
  }

  /** Row `i` of a trace records day `d0 + i`, its demand, and the state after
      the first `i + 1` days. */
  lemma {:induction false} TraceRow(s0: State, d0: int, ds: seq<nat>, p: Policy, i: nat)
    requires i < |ds|
    ensures |Trace(s0, d0, ds, p)| == |ds|
    ensures Trace(s0, d0, ds, p)[i]
         == Row(d0 + i, ds[i], Final(s0, d0, ds[..i + 1], p).onHand, Final(s0, d0, ds[..i + 1], p).backlog)
    decreases |ds|
  {
    var n := |ds|;
    var prefix := ds[..n - 1];
    TraceLength(s0, d0, prefix, p);
    if i == n - 1 {
      assert ds[..i + 1] == ds;
    } else {
      TraceRow(s0, d0, prefix, p, i);
      assert prefix[..i + 1] == ds[..i + 1];
    }
  }

  lemma {:induction false} TraceLength(s0: State, d0: int, ds: seq<nat>, p: Policy)
    ensures |Trace(s0, d0, ds, p)| == |ds|
    decreases |ds|
  {
    if ds != [] {
      TraceLength(s0, d0, ds[..|ds| - 1], p);
    }
  }

  /** Every recorded row: the right day and demand, non-negative stock and
      backlog, and a backlog that rises by at most that day's demand. */
  lemma TraceFacts(s0: State, d0: int, ds: seq<nat>, p: Policy)
    requires p.lead >= 1
    requires Valid(s0, d0, p)
    ensures var t := Trace(s0, d0, ds, p);
      && |t| == |ds|
      && (forall i :: 0 <= i < |t| ==> t[i].day == d0 + i && t[i].demand == ds[i])
      && (forall i :: 0 <= i < |t| ==> t[i].onHand >= 0.0 && t[i].backlog >= 0.0)
      && (|t| > 0 ==> t[0].backlog <= s0.backlog + t[0].demand as real)
      && (forall i :: 1 <= i < |t| ==> RiseWithinDemand(t, i))
  {
    var t := Trace(s0, d0, ds, p);
    TraceLength(s0, d0, ds, p);
    forall i | 0 <= i < |t|
      ensures t[i].day == d0 + i && t[i].demand == ds[i]
      ensures t[i].onHand >= 0.0 && t[i].backlog >= 0.0
      ensures i == 0 ==> t[0].backlog <= s0.backlog + t[0].demand as real
      ensures i >= 1 ==> RiseWithinDemand(t, i)
    {
      TraceRowFacts(s0, d0, ds, p, i);
    }
  }

  /** The facts of one recorded row. */
  lemma TraceRowFacts(s0: State, d0: int, ds: seq<nat>, p: Policy, i: nat)
    requires p.lead >= 1
    requires Valid(s0, d0, p)
    requires i < |ds|
    ensures |Trace(s0, d0, ds, p)| == |ds|
    ensures Trace(s0, d0, ds, p)[i].day == d0 + i && Trace(s0, d0, ds, p)[i].demand == ds[i]
    ensures Trace(s0, d0, ds, p)[i].onHand >= 0.0 && Trace(s0, d0, ds, p)[i].backlog >= 0.0
    ensures i == 0 ==> Trace(s0, d0, ds, p)[0].backlog <= s0.backlog + ds[0] as real
    ensures i >= 1 ==> RiseWithinDemand(Trace(s0, d0, ds, p), i)
  {
    TraceRow(s0, d0, ds, p, i);
    PrefixStep(s0, d0, ds, p, i);
    if i == 0 {
      assert ds[..0] == [];
    } else {
      TraceRow(s0, d0, ds, p, i - 1);
    }
  }

  /** The state after the first `i + 1` days is valid, and its backlog is at
      most the backlog after `i` days plus day `i`'s demand. */
  lemma PrefixStep(s0: State, d0: int, ds: seq<nat>, p: Policy, i: nat)
    requires p.lead >= 1
    requires Valid(s0, d0, p)
    requires i < |ds|
    ensures Final(s0, d0, ds[..i + 1], p).onHand >= 0.0
    ensures Final(s0, d0, ds[..i + 1], p).backlog >= 0.0
    ensures Final(s0, d0, ds[..i + 1], p).backlog <= Final(s0, d0, ds[..i], p).backlog + ds[i] as real
  {
    assert ds[..i + 1][..i] == ds[..i];
    FinalValid(s0, d0, ds[..i], p);
    StepPreservesValid(Final(s0, d0, ds[..i], p), d0 + i, ds[i], p);
  }

  /** Corollary: with a threshold of zero or less no order is placed on the first day. */
  lemma NoFirstDayOrderWithoutSafety(p: Policy, lastDay: int)
    requires p.safety <= 0.0
    ensures Reorder(Receive(Init, lastDay + 1), lastDay + 1, p).pipe == []
  {
  }

  /** With a positive threshold an order of positive size is placed on the first day. */
  lemma FirstDayOrderWithSafety(p: Policy, lastDay: int)
    requires p.safety > 0.0 && p.lead >= 1 && OrderQty(p) > 0
    ensures Reorder(Receive(Init, lastDay + 1), lastDay + 1, p).pipe == [Order(lastDay + 1 + p.lead, OrderQty(p))]
  {
  }

  // ---------------------------------------------------------------------------
  // Aggregates over the finished rows.
  // ---------------------------------------------------------------------------

  /** The demand column's sum. */
  function SumDemand(rows: seq<Row>): (r: int)
    ensures r >= 0
  {
    if rows == [] then 0 else rows[0].demand + SumDemand(rows[1..])
  }

  /** The backlog column's sum; never negative when no backlog is. */
  function SumBacklog(rows: seq<Row>): (r: real)
    ensures (forall i :: 0 <= i < |rows| ==> rows[i].backlog >= 0.0) ==> r >= 0.0
  {
    if rows == [] then 0.0 else rows[0].backlog + SumBacklog(rows[1..])
  }

  /** The stock column's sum; never negative when no stock is. */
  function SumOnHand(rows: seq<Row>): (r: real)
    ensures (forall i :: 0 <= i < |rows| ==> rows[i].onHand >= 0.0) ==> r >= 0.0
  {
    if rows == [] then 0.0 else rows[0].onHand + SumOnHand(rows[1..])
  }

  /** The sum of the positive day-over-day backlog increases from the second
      row on (the first difference is undefined and skipped). */
  function Increases(rows: seq<Row>): (x: real)
    ensures x >= 0.0
    decreases |rows|
  {
    if |rows| < 2 then 0.0
    else Max(0.0, rows[1].backlog - rows[0].backlog) + Increases(rows[1..])
  }

  /** The delayed quantity: the backlog increases, or zero when the backlog
      column sums to zero. */
  function Delayed(rows: seq<Row>): (x: real)
    ensures x >= 0.0
    ensures x > 0.0 ==> SumBacklog(rows) > 0.0
  {
    if SumBacklog(rows) > 0.0 then Increases(rows) else 0.0
  }

  /** Fill rate: one minus delayed over total demand, 1 when there is no demand. */
  function FillRate(rows: seq<Row>): (f: real)
    ensures f <= 1.0
    ensures SumDemand(rows) == 0 ==> f == 1.0
  {
    1.0 - (if SumDemand(rows) != 0 then Delayed(rows) / SumDemand(rows) as real else 0.0)
  }

  /** With no negative backlog, a backlog column summing to zero is all zero,
      so the backlog never rises. */
  lemma {:induction false} IncreasesOfZeroBacklog(rows: seq<Row>)
    requires forall i :: 0 <= i < |rows| ==> rows[i].backlog >= 0.0
    requires SumBacklog(rows) <= 0.0
    ensures Increases(rows) == 0.0
    decreases |rows|
  {
    if |rows| >= 2 {
      var tail := rows[1..];
      assert forall i :: 0 <= i < |tail| ==> tail[i].backlog == rows[i + 1].backlog;
      assert SumBacklog(tail) >= 0.0;
      assert SumBacklog(tail) == tail[0].backlog + SumBacklog(tail[1..]);
      assert forall i :: 0 <= i < |tail[1..]| ==> tail[1..][i].backlog == rows[i + 2].backlog;
      assert SumBacklog(tail[1..]) >= 0.0;
      IncreasesOfZeroBacklog(tail);
    }
  }

  /** The guard on a positive backlog sum changes nothing when no backlog is
      negative: the delayed quantity is always the sum of backlog increases. */
  lemma DelayedIsIncreases(rows: seq<Row>)
    requires forall i :: 0 <= i < |rows| ==> rows[i].backlog >= 0.0
    ensures Delayed(rows) == Increases(rows)
  {
    if SumBacklog(rows) <= 0.0 {
      IncreasesOfZeroBacklog(rows);
    }
  }

  /** Number of rows with no stock on hand. */
  function StockoutDays(rows: seq<Row>): (n: nat)
    ensures n <= |rows|
    ensures n == |rows| <==> forall i :: 0 <= i < |rows| ==> rows[i].onHand <= 0.0
    ensures n == 0 <==> forall i :: 0 <= i < |rows| ==> rows[i].onHand > 0.0
  {
    if rows == [] then 0
    else (if rows[0].onHand <= 0.0 then 1 else 0) + StockoutDays(rows[1..])
  }

  /** Mean stock on hand over the rows. */
  function AvgOnHand(rows: seq<Row>): (a: real)
    requires |rows| > 0
    ensures a * |rows| as real == SumOnHand(rows)
    ensures (forall i :: 0 <= i < |rows| ==> rows[i].onHand >= 0.0) ==> a >= 0.0
  {
    SumOnHand(rows) / |rows| as real
  }

  /** Backlog increases are bounded by the demand of the rows they occur on. */
  lemma {:induction false} IncreasesBounded(rows: seq<Row>)
    requires forall i :: 0 <= i < |rows| ==> rows[i].backlog >= 0.0
    requires forall i :: 1 <= i < |rows| ==> RiseWithinDemand(rows, i)
    ensures 0.0 <= Increases(rows)
    ensures |rows| > 0 ==> Increases(rows) <= (SumDemand(rows) - rows[0].demand) as real
    decreases |rows|
  {
    if |rows| >= 2 {
      var tail := rows[1..];
      forall i | 1 <= i < |tail|
        ensures RiseWithinDemand(tail, i)
      {
        assert RiseWithinDemand(rows, i + 1);
      }
      assert RiseWithinDemand(rows, 1);
      IncreasesBounded(tail);
      assert SumDemand(rows) == rows[0].demand + SumDemand(tail);
      assert SumDemand(tail) == tail[0].demand + SumDemand(tail[1..]);
    }
  }

  lemma {:induction false} SumOnHandNonNegative(rows: seq<Row>)
    requires forall i :: 0 <= i < |rows| ==> rows[i].onHand >= 0.0
    ensures SumOnHand(rows) >= 0.0
  {
    if rows != [] {
      SumOnHandNonNegative(rows[1..]);
    }
  }

  /** A share of a positive whole lies in [0, 1]. */
  lemma DivUnit(a: real, b: real)
    requires 0.0 <= a <= b && b > 0.0
    ensures 0.0 <= a / b <= 1.0
  {
  }

  /** For rows with non-negative backlog that rises by at most each day's
      demand, the delayed quantity lies between zero and total demand, and the
      fill rate in [0, 1]. */
  lemma FillRateOfRows(rows: seq<Row>)
    requires forall i :: 0 <= i < |rows| ==> rows[i].backlog >= 0.0
    requires forall i :: 1 <= i < |rows| ==> RiseWithinDemand(rows, i)
    ensures 0.0 <= Delayed(rows) <= SumDemand(rows) as real
    ensures 0.0 <= FillRate(rows) <= 1.0
  {
    IncreasesBounded(rows);
    if SumDemand(rows) != 0 {
      DivUnit(Delayed(rows), SumDemand(rows) as real);
    }
  }

  /** The delayed quantity of a run never exceeds its total demand, so the fill
      rate lies in [0, 1]; it is exactly 1 when there is no demand. */
  lemma FillRateBounds(p: Policy, lastDay: int, demand: seq<nat>)
    requires p.lead >= 1
    ensures 0.0 <= Delayed(Run(p, lastDay, demand)) <= SumDemand(Run(p, lastDay, demand)) as real
    ensures 0.0 <= FillRate(Run(p, lastDay, demand)) <= 1.0
    ensures SumDemand(Run(p, lastDay, demand)) == 0 ==> FillRate(Run(p, lastDay, demand)) == 1.0
  {
    TraceFacts(Init, lastDay + 1, demand, p);
    FillRateOfRows(Run(p, lastDay, demand));
  }

  /** Rows with non-negative stock: a stockout day is a day with exactly
      zero stock, and the average stock is non-negative. */
  lemma RowsSummary(rows: seq<Row>)
    requires forall i :: 0 <= i < |rows| ==> rows[i].onHand >= 0.0
    ensures forall i :: 0 <= i < |rows| ==> (rows[i].onHand <= 0.0 <==> rows[i].onHand == 0.0)
    ensures |rows| > 0 ==> AvgOnHand(rows) >= 0.0
  {
    SumOnHandNonNegative(rows);
  }

  /** Stockout days of a run count the days with exactly zero stock, and there
      are at most as many as the horizon; average stock is non-negative. */
  lemma RunSummary(p: Policy, lastDay: int, demand: seq<nat>)
    requires p.lead >= 1
    ensures StockoutDays(Run(p, lastDay, demand)) <= |demand|
    ensures var rows := Run(p, lastDay, demand);
      forall i :: 0 <= i < |rows| ==> (rows[i].onHand <= 0.0 <==> rows[i].onHand == 0.0)
    ensures |demand| > 0 ==> AvgOnHand(Run(p, lastDay, demand)) >= 0.0
  {
    TraceFacts(Init, lastDay + 1, demand, p);
    RowsSummary(Run(p, lastDay, demand));
  }
}
