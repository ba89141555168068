/**
 * The three vectorized trader pools (`NoiseTrader`, `MomentumTrader`,
 * `ValueInvestors`) and their `tick_decision`: a forced sell for bankrupt
 * rows, a strategy signal for active solvent rows, a cooldown countdown, and
 * then the clearing step.  Every random draw of a tick is an explicit
 * per-row argument.
 */
module TraderPools {
  import opened Numeric
  import opened Clearing
  import opened RollingWindow

  /** A row that must raise cash this tick: at or under the floor and not cooling down. */
  predicate Bankrupt(t: Trader, bankruptcyCash: real)
  {
    t.cash <= bankruptcyCash && t.cooldown == 0
  }

  /** An active row: cooling down over and cash above the bankruptcy floor. */
  predicate Ready(t: Trader, bankruptcyCash: real)
  {
    t.cooldown == 0 && t.cash > bankruptcyCash
  }

  /**
   * Size of the forced sell of a bankrupt row: twice its cash shortfall in
   * units, or the floored size draw if larger, and never less than one unit.
   * The momentum and value pools have no size draw (it is 0 for them).
   */
  function RescueSize(t: Trader, bankruptcyCash: real, price: real, draw: nat): (n: int)
    requires price > 0.0
    ensures n >= 1 && n >= draw
    ensures n >= ((bankruptcyCash - t.cash) / price * 2.0).Floor
    ensures n == 1 || n == draw || n == ((bankruptcyCash - t.cash) / price * 2.0).Floor
  {
    Max(1, Max(((bankruptcyCash - t.cash) / price * 2.0).Floor, draw))
  }

  /** The order column after the bankruptcy stage: a forced sell, or the row's order as it was. */
  function RescueOrder(t: Trader, bankruptcyCash: real, price: real, draw: nat): int
    requires price > 0.0
  {
    if Bankrupt(t, bankruptcyCash) then -RescueSize(t, bankruptcyCash, price, draw) else t.order
  }

  /** One tick of a row's countdown: an active row takes the fresh wait draw, any other row counts down. */
  function StepCooldown(c: int, wait: nat): int
  {
    if c == 0 then wait else c - 1
  }

  /** The countdown after one tick per wait draw. */
  function Countdown(c: int, waits: seq<nat>): int
    decreases |waits|
  {
    if |waits| == 0 then c else Countdown(StepCooldown(c, waits[0]), waits[1..])
  }

  /**
   * A row with a non-negative cooldown `c` counts down through `c - j` after
   * `j` ticks, whatever the draws, and is active again exactly `c` ticks later.
   */
  lemma {:induction false} CountdownReachesZero(c: nat, waits: seq<nat>)
    requires |waits| <= c
    ensures Countdown(c, waits) == c - |waits|
  {
    if |waits| > 0 {
      CountdownReachesZero(c - 1, waits[1..]);
    }
  }

  /** Cooldowns never go negative, whatever the (non-negative) draws. */
  lemma {:induction false} CountdownStaysNonNegative(c: nat, waits: seq<nat>)
    ensures Countdown(c, waits) >= 0
    decreases |waits|
  {
    if |waits| > 0 {
      CountdownStaysNonNegative(StepCooldown(c, waits[0]), waits[1..]);
    }
  }

  /** The state every pool row is in between ticks. */
  predicate Idle(t: Trader)
  {
    Solvent(t) && t.order == 0 && t.cooldown >= 0
  }

  predicate AllIdle(ts: seq<Trader>)
  {
    forall i :: 0 <= i < |ts| ==> Idle(ts[i])
  }

  /** The rows of a freshly built pool: the uniform/randint draws give non-negative cash and holdings. */
  function InitialRows(cash: seq<real>, positions: seq<nat>, cooldowns: seq<nat>): (ts: seq<Trader>)
    requires |cash| == |positions| == |cooldowns|
    requires forall i :: 0 <= i < |cash| ==> cash[i] >= 0.0
    ensures |ts| == |cash| && AllIdle(ts)
    ensures forall i :: 0 <= i < |ts| ==> ts[i] == Trader(cash[i], positions[i], 0, cooldowns[i])
  {
    seq(|cash|, i requires 0 <= i < |cash| => Trader(cash[i], positions[i], 0, cooldowns[i]))
  }

  /** A pool's answer to one tick: its rows after clearing and the (buy, sell) totals. */
  datatype TickTotals = TickTotals(buyAmount: int, sellAmount: int)

  /**
   * How clearing leaves a tick's rows, given the orders the pool placed:
   * every order column reset, cooldowns and wealth at `price` kept, and an
   * order that neither clamp touches filled in full.
   */
  predicate SettledRows(orders: seq<Trader>, after: seq<Trader>, price: real)
  {
    && |after| == |orders|
    && forall i :: 0 <= i < |orders| ==>
         && after[i].order == 0 && after[i].cooldown == orders[i].cooldown
         && Wealth(after[i], price) == Wealth(orders[i], price)
         && (Solvent(orders[i]) ==> Solvent(after[i]))
         && (!CashConstrained(orders[i], price) && !PositionConstrained(orders[i]) ==>
               after[i].positions == orders[i].positions + orders[i].order)
  }

  /** The totals are fills: between nothing and the volume the rows asked for on each side. */
  predicate TotalsWithin(orders: seq<Trader>, t: TickTotals)
  {
    && ((forall i :: 0 <= i < |orders| ==> orders[i].cash >= 0.0) ==> 0 <= t.buyAmount <= Requested(orders, true))
    && ((forall i :: 0 <= i < |orders| ==> orders[i].positions >= 0) ==> Requested(orders, false) <= t.sellAmount <= 0)
  }

  /**
   * Each total is the volume asked for on its side exactly when no row on
   * that side was clamped: every buyer could pay, and no seller went short.
   */
  predicate TotalsExact(orders: seq<Trader>, t: TickTotals, price: real)
  {
    && (t.buyAmount == Requested(orders, true) <==> forall i :: 0 <= i < |orders| ==> !CashConstrained(orders[i], price))
    && (t.sellAmount == Requested(orders, false) <==> forall i :: 0 <= i < |orders| ==> !PositionConstrained(orders[i]))
  }

  /**
   * The orders a pool places keep each row's cash and holdings and step its
   * countdown with the row's wait draw.
   */
  predicate OrdersFrom(before: seq<Trader>, orders: seq<Trader>, waits: seq<nat>)
  {
    && |orders| == |before| == |waits|
    && forall i :: 0 <= i < |before| ==>
         && orders[i].cash == before[i].cash && orders[i].positions == before[i].positions
         && orders[i].cooldown == StepCooldown(before[i].cooldown, waits[i])
  }

  /**
   * Clearing a pool's orders: the rows settle them, the totals are their
   * fills, every countdown has stepped, wealth at `price` is unchanged, and
   * idle rows stay idle.
   */
  lemma ClearPool(before: seq<Trader>, orders: seq<Trader>, waits: seq<nat>, price: real)
    requires price > 0.0 && OrdersFrom(before, orders, waits)
    ensures var c := FinishPositionChange(orders, price);
            && SettledRows(orders, c.traders, price)
            && TotalsWithin(orders, TickTotals(c.buyAmount, c.sellAmount))
            && (forall i :: 0 <= i < |before| ==>
                  && c.traders[i].cooldown == StepCooldown(before[i].cooldown, waits[i])
                  && Wealth(c.traders[i], price) == Wealth(before[i], price))
            && (AllIdle(before) ==> AllIdle(c.traders))
  {
    var c := FinishPositionChange(orders, price);
    ClearingSettles(orders, price);
    SettledPool(before, orders, c.traders, waits, price);
  }

  /** What the clearing step does to any batch of orders. */
  lemma ClearingSettles(orders: seq<Trader>, price: real)
    requires price > 0.0
    ensures SettledRows(orders, FinishPositionChange(orders, price).traders, price)
    ensures TotalsWithin(orders, TickTotals(FinishPositionChange(orders, price).buyAmount,
                                           FinishPositionChange(orders, price).sellAmount))
  {
  }

  /** Rows that settle a pool's orders have stepped countdowns and unchanged wealth, and idle rows stay idle. */
  lemma SettledPool(before: seq<Trader>, orders: seq<Trader>, after: seq<Trader>, waits: seq<nat>, price: real)
    requires OrdersFrom(before, orders, waits) && SettledRows(orders, after, price)
    ensures |after| == |before|
    ensures forall i :: 0 <= i < |before| ==>
              && after[i].cooldown == StepCooldown(before[i].cooldown, waits[i])
              && Wealth(after[i], price) == Wealth(before[i], price)
    ensures AllIdle(before) ==> AllIdle(after)
  {
    forall i | 0 <= i < |before|
      ensures Wealth(after[i], price) == Wealth(before[i], price)
      ensures Idle(before[i]) ==> Idle(after[i])
    {
      assert Wealth(orders[i], price) == Wealth(before[i], price);
    }
  }

  /** The exact-total equivalences of the clearing step, for rows with non-negative cash and holdings. */
  lemma ClearedTotalsExact(orders: seq<Trader>, price: real)
    requires price > 0.0 && forall i :: 0 <= i < |orders| ==> Solvent(orders[i])
    ensures TotalsExact(orders, TickTotals(FinishPositionChange(orders, price).buyAmount,
                                           FinishPositionChange(orders, price).sellAmount), price)
  {
    BuyTotalIsRequestedIff(orders, price);
    SellTotalIsRequestedIff(orders, price);
  }

  // ---------------------------------------------------------------- noise pool

  /** The per-row draws of one noise tick (all already truncated as the source truncates them). */
  datatype NoiseDraw = NoiseDraw(rescue: nat, decision: real, size: nat, wait: nat)

  datatype NoisePool = NoisePool(traders: seq<Trader>, bankruptcyCash: real)

  /**
   * The noise pool's order for one row: the forced sell of a bankrupt row,
   * then a buy of `size` if the decision draw is under 0.4 or a sell of
   * `size` if it is in [0.4, 0.8), both only for active solvent rows.
   */
  function NoiseRow(t: Trader, bankruptcyCash: real, price: real, d: NoiseDraw): (r: Trader)
    requires price > 0.0
    ensures r.cash == t.cash && r.positions == t.positions
    ensures r.cooldown == StepCooldown(t.cooldown, d.wait)
    ensures Bankrupt(t, bankruptcyCash) ==> r.order == -RescueSize(t, bankruptcyCash, price, d.rescue)
    ensures Ready(t, bankruptcyCash) && d.decision < 0.4 ==> r.order == d.size
    ensures Ready(t, bankruptcyCash) && 0.4 <= d.decision < 0.8 ==> r.order == -(d.size as int)
    ensures !Bankrupt(t, bankruptcyCash) && !(Ready(t, bankruptcyCash) && d.decision < 0.8) ==> r.order == t.order
  {
    var o1 := RescueOrder(t, bankruptcyCash, price, d.rescue);
    var buy := Ready(t, bankruptcyCash) && d.decision < 0.4;
    var sell := Ready(t, bankruptcyCash) && d.decision >= 0.4 && d.decision < 0.8;
    var o2 := if buy then d.size else o1;
    var o3 := if sell then -(d.size as int) else o2;
    t.(order := o3, cooldown := StepCooldown(t.cooldown, d.wait))
  }

  /** The wait draws of a tick, one per row, read from each row's draw by `wait`. */
  function Waits<D>(draws: seq<D>, wait: D -> nat): (w: seq<nat>)
    ensures |w| == |draws| && forall i :: 0 <= i < |draws| ==> w[i] == wait(draws[i])
  {
    seq(|draws|, i requires 0 <= i < |draws| => wait(draws[i]))
  }

  /** The wait draw of one noise row. */
  function NoiseWait(d: NoiseDraw): nat
  {
    d.wait
  }

  /** The order stage of a noise tick: every row with its order, before clearing. */
  function NoiseOrders(p: NoisePool, price: real, draws: seq<NoiseDraw>): (o: seq<Trader>)
    requires price > 0.0 && |draws| == |p.traders|
    ensures |o| == |p.traders|
    ensures OrdersFrom(p.traders, o, Waits(draws, NoiseWait))
  {
    seq(|p.traders|, i requires 0 <= i < |p.traders| => NoiseRow(p.traders[i], p.bankruptcyCash, price, draws[i]))
  }

  /**
   * `NoiseTrader.tick_decision`: every row settles the order `NoiseRow`
   * gave it, and the totals are the fills of those orders.
   */
  function NoiseTickDecision(p: NoisePool, price: real, draws: seq<NoiseDraw>): (r: (NoisePool, TickTotals))
    requires price > 0.0 && |draws| == |p.traders|
    ensures r.0.bankruptcyCash == p.bankruptcyCash
    ensures var orders := NoiseOrders(p, price, draws);
            SettledRows(orders, r.0.traders, price) && TotalsWithin(orders, r.1)
    ensures forall i :: 0 <= i < |p.traders| ==>
              && r.0.traders[i].cooldown == StepCooldown(p.traders[i].cooldown, draws[i].wait)
              && Wealth(r.0.traders[i], price) == Wealth(p.traders[i], price)
    ensures AllIdle(p.traders) ==> AllIdle(r.0.traders)
  {
    var orders := NoiseOrders(p, price, draws);
    var c := FinishPositionChange(orders, price);
    ClearPool(p.traders, orders, Waits(draws, NoiseWait), price);
    (p.(traders := c.traders), TickTotals(c.buyAmount, c.sellAmount))
  }

  /** Over solvent rows, each noise total is the requested volume exactly when no row on its side was clamped. */
  lemma NoiseTotalsAreFills(p: NoisePool, price: real, draws: seq<NoiseDraw>)
    requires price > 0.0 && |draws| == |p.traders|
    requires forall i :: 0 <= i < |p.traders| ==> Solvent(p.traders[i])
    ensures TotalsExact(NoiseOrders(p, price, draws), NoiseTickDecision(p, price, draws).1, price)
  {
    ClearedTotalsExact(NoiseOrders(p, price, draws), price);
  }

  // ------------------------------------------------------------- momentum pool

  /** A momentum row's own coefficients (the extra columns of its record). */
  datatype MomentumCoef = MomentumCoef(decisionTime: nat, judgeCoef: real, riskCoef: real)

  /** The constructor draws `decision_time` from [30, 360), so `3 * decision_time` fits the window. */
  predicate CoefOk(c: MomentumCoef)
  {
    30 <= c.decisionTime < 360
  }

  datatype MomentumPool = MomentumPool(traders: seq<Trader>, coefs: seq<MomentumCoef>, window: Window, bankruptcyCash: real)

  predicate MomentumPoolOk(p: MomentumPool)
  {
    |p.coefs| == |p.traders| && Inv(p.window) && forall i :: 0 <= i < |p.coefs| ==> CoefOk(p.coefs[i])
  }

  /** The per-row draws of one momentum tick. */
  datatype MomentumDraw = MomentumDraw(buyFraction: real, sellFraction: real, wait: nat)

  /**
   * With a non-negative judge threshold no signal is both above it and below
   * its negation, so the buy and sell masks are disjoint; with a negative
   * threshold a zero signal is in both.
   */
  lemma SignalSidesDisjoint(s: Signal, judge: real)
    ensures judge >= 0.0 ==> !(Above(s, judge) && Below(s, -judge))
    ensures judge < 0.0 ==> Above(Finite(0.0), judge) && Below(Finite(0.0), -judge)
  {
  }

  /** A row's moving average, z-score signal and judge threshold. */
  datatype Stats = Stats(ma: real, signal: Signal, judge: real)

  /**
   * The statistics of one active momentum row (:155-163) over `k` =
   * decision_time: the trailing mean of `k` prices; the signal
   * `(price - MA) / sigma_t` and the threshold `judge_coef * sigma_market`,
   * where each sigma is a sum of squares minus count times squared mean over
   * `k` and `3k` prices (no division by the count, no square root).
   */
  function MomentumStats(w: Window, reader: Reader, c: MomentumCoef, price: real): Stats
    requires Sized(w) && CoefOk(c) && 3 * c.decisionTime <= w.len
  {
    var k := c.decisionTime;
    StatsFrom(c, price, WindowSum(w, reader, k), WindowSum(w, reader, 3 * k),
              WindowSquareSum(w, reader, k), WindowSquareSum(w, reader, 3 * k))
  }

  /** The statistics from the four window differences: sums and square sums over `k` and `3k` prices. */
  function StatsFrom(c: MomentumCoef, price: real, sumT: real, sum3T: real, squaresT: real, squares3T: real): Stats
    requires CoefOk(c)
  {
    var k := c.decisionTime;
    var ma := sumT / k as real;
    var avg3 := sum3T / (3 * k) as real;
    var sigmaMarket := squares3T - (3 * k) as real * (avg3 * avg3);
    var sigmaT := squaresT - k as real * (ma * ma);
    Stats(ma, Quotient(price - ma, sigmaT), c.judgeCoef * sigmaMarket)
  }

  /** An active momentum row: ready, and the window holds at least `3 * decision_time` prices. */
  predicate MomentumActive(t: Trader, c: MomentumCoef, w: Window, bankruptcyCash: real)
  {
    Ready(t, bankruptcyCash) && w.len >= 3 * c.decisionTime
  }

  /** A row in the risk branch: active with the price above its risk multiple of the moving average. */
  predicate AtRisk(t: Trader, c: MomentumCoef, w: Window, reader: Reader, bankruptcyCash: real, price: real)
    requires Sized(w) && CoefOk(c)
  {
    MomentumActive(t, c, w, bankruptcyCash) && price > MomentumStats(w, reader, c, price).ma * c.riskCoef
  }

  /** Units bought with a fraction of the row's cash (:168, :220). */
  function BuySize(t: Trader, price: real, fraction: real): int
    requires price > 0.0
  {
    (t.cash / price * fraction).Floor
  }

  /** Units sold out of a fraction of the row's holdings (:170, :222). */
  function SellSize(t: Trader, fraction: real): int
  {
    (t.positions as real * fraction).Floor
  }

  /**
   * The momentum pool's order for one row: the forced sell of a bankrupt row;
   * for an active row, full liquidation in the risk branch, otherwise a buy
   * when the signal is above the judge threshold and a sell when it is below
   * its negation (the sell is assigned last and wins if both hold).
   */
  function MomentumRow(t: Trader, c: MomentumCoef, w: Window, reader: Reader, bankruptcyCash: real,
                       price: real, d: MomentumDraw): (r: Trader)
    requires price > 0.0 && Sized(w) && CoefOk(c)
    ensures r.cash == t.cash && r.positions == t.positions
    ensures r.cooldown == StepCooldown(t.cooldown, d.wait)
    ensures Bankrupt(t, bankruptcyCash) ==> r.order == -RescueSize(t, bankruptcyCash, price, 0)
    ensures AtRisk(t, c, w, reader, bankruptcyCash, price) ==> r.order == -t.positions
    ensures !Bankrupt(t, bankruptcyCash) && !MomentumActive(t, c, w, bankruptcyCash) ==> r.order == t.order
    ensures MomentumActive(t, c, w, bankruptcyCash) && !AtRisk(t, c, w, reader, bankruptcyCash, price) ==>
              var s := MomentumStats(w, reader, c, price);
              && (Below(s.signal, -s.judge) ==> r.order == -SellSize(t, d.sellFraction))
              && (Above(s.signal, s.judge) && !Below(s.signal, -s.judge) ==> r.order == BuySize(t, price, d.buyFraction))
              && (!Above(s.signal, s.judge) && !Below(s.signal, -s.judge) ==> r.order == t.order)
  {
    var o1 := RescueOrder(t, bankruptcyCash, price, 0);
    var cooldown := StepCooldown(t.cooldown, d.wait);
    if !MomentumActive(t, c, w, bankruptcyCash) then
      t.(order := o1, cooldown := cooldown)
    else
      t.(order := SignalOrder(t, MomentumStats(w, reader, c, price), c.riskCoef, price, d, o1), cooldown := cooldown)
  }

  /** The risk, buy and sell stages (:165-170) of an active row, given its statistics. */
  function SignalOrder(t: Trader, s: Stats, riskCoef: real, price: real, d: MomentumDraw, fallback: int): (o: int)
    requires price > 0.0
    ensures price > s.ma * riskCoef ==> o == -t.positions
    ensures !(price > s.ma * riskCoef) ==>
              && (Below(s.signal, -s.judge) ==> o == -SellSize(t, d.sellFraction))
              && (Above(s.signal, s.judge) && !Below(s.signal, -s.judge) ==> o == BuySize(t, price, d.buyFraction))
              && (!Above(s.signal, s.judge) && !Below(s.signal, -s.judge) ==> o == fallback)
  {
    var risk := price > s.ma * riskCoef;
    var o2 := if risk then -t.positions else fallback;
    var o3 := if !risk && Above(s.signal, s.judge) then BuySize(t, price, d.buyFraction) else o2;
    if !risk && Below(s.signal, -s.judge) then -SellSize(t, d.sellFraction) else o3
  }

  /** The wait draw of one momentum row. */
  function MomentumWait(d: MomentumDraw): nat
  {
    d.wait
  }

  /** The order stage of a momentum tick over the window `w` (the one with the tick's price appended). */
  function MomentumOrders(p: MomentumPool, w: Window, price: real, draws: seq<MomentumDraw>, reader: Reader)
    : (o: seq<Trader>)
    requires price > 0.0 && MomentumPoolOk(p) && Sized(w) && |draws| == |p.traders|
    ensures |o| == |p.traders|
    ensures OrdersFrom(p.traders, o, Waits(draws, MomentumWait))
  {
    seq(|p.traders|, i requires 0 <= i < |p.traders| =>
          MomentumRow(p.traders[i], p.coefs[i], w, reader, p.bankruptcyCash, price, draws[i]))
  }

  /**
   * `MomentumTrader.tick_decision`: append the price to the window; every
   * row settles the order `MomentumRow` gives it over the new window, and
   * the totals are the fills of those orders.
   */
  function MomentumTickDecision(p: MomentumPool, price: real, draws: seq<MomentumDraw>, reader: Reader)
    : (r: (MomentumPool, TickTotals))
    requires price > 0.0 && MomentumPoolOk(p) && |draws| == |p.traders|
    ensures MomentumPoolOk(r.0) && r.0.coefs == p.coefs && r.0.bankruptcyCash == p.bankruptcyCash
    ensures r.0.window == Append(p.window, price)
    ensures var orders := MomentumOrders(p, r.0.window, price, draws, reader);
            SettledRows(orders, r.0.traders, price) && TotalsWithin(orders, r.1)
    ensures forall i :: 0 <= i < |p.traders| ==>
              && r.0.traders[i].cooldown == StepCooldown(p.traders[i].cooldown, draws[i].wait)
              && Wealth(r.0.traders[i], price) == Wealth(p.traders[i], price)
    ensures AllIdle(p.traders) ==> AllIdle(r.0.traders)
  {
    var w := Append(p.window, price);
    AppendKeepsInv(p.window, price);
    var orders := MomentumOrders(p, w, price, draws, reader);
    var c := FinishPositionChange(orders, price);
    ClearPool(p.traders, orders, Waits(draws, MomentumWait), price);
    (p.(traders := c.traders, window := w), TickTotals(c.buyAmount, c.sellAmount))
  }

  /** Over solvent rows, each momentum total is the requested volume exactly when no row on its side was clamped. */
  lemma MomentumTotalsAreFills(p: MomentumPool, price: real, draws: seq<MomentumDraw>, reader: Reader)
    requires price > 0.0 && MomentumPoolOk(p) && |draws| == |p.traders|
    requires forall i :: 0 <= i < |p.traders| ==> Solvent(p.traders[i])
    ensures TotalsExact(MomentumOrders(p, Append(p.window, price), price, draws, reader),
                        MomentumTickDecision(p, price, draws, reader).1, price)
  {
    ClearedTotalsExact(MomentumOrders(p, Append(p.window, price), price, draws, reader), price);
  }

  /**
   * Read at the newest slot, an active row's moving average is the mean of
   * the last `decision_time` prices and its judge threshold is non-negative
   * (a sum of squared deviations times a non-negative coefficient), so its
   * buy and sell masks are disjoint.
   */
  lemma NewestSlotStatsAreSound(w: Window, h: seq<real>, c: MomentumCoef, price: real)
    requires Tracks(w, h) && CoefOk(c) && c.judgeCoef >= 0.0 && 3 * c.decisionTime <= w.len
    ensures MomentumStats(w, NewestSlot, c, price).ma == Sum(h[|h| - c.decisionTime..]) / c.decisionTime as real
    ensures MomentumStats(w, NewestSlot, c, price).judge >= 0.0
    ensures var s := MomentumStats(w, NewestSlot, c, price);
            !(Above(s.signal, s.judge) && Below(s.signal, -s.judge))
  {
    NewestSlotIsTrailingSum(w, h, c.decisionTime);
    NewestSlotJudgeNonNegative(w, h, c, price);
    var s := MomentumStats(w, NewestSlot, c, price);
    SignalSidesDisjoint(s.signal, s.judge);
  }

  /** Read at the newest slot, the judge threshold is a non-negative multiple of a spread. */
  lemma NewestSlotJudgeNonNegative(w: Window, h: seq<real>, c: MomentumCoef, price: real)
    requires Tracks(w, h) && CoefOk(c) && c.judgeCoef >= 0.0 && 3 * c.decisionTime <= w.len
    ensures MomentumStats(w, NewestSlot, c, price).judge >= 0.0
  {
    var k := c.decisionTime;
    NewestSlotSpread(w, h, 3 * k);
    JudgeFromSpread(c, price, WindowSum(w, NewestSlot, k), WindowSum(w, NewestSlot, 3 * k),
                    WindowSquareSum(w, NewestSlot, k), WindowSquareSum(w, NewestSlot, 3 * k));
  }

  /** Cauchy-Schwarz for the last `n` prices, read from the window at the newest slot. */
  lemma NewestSlotSpread(w: Window, h: seq<real>, n: nat)
    requires Tracks(w, h) && 1 <= n <= w.len && n < Capacity
    ensures n as real * WindowSquareSum(w, NewestSlot, n) >= WindowSum(w, NewestSlot, n) * WindowSum(w, NewestSlot, n)
  {
    var tail := h[|h| - n..];
    NewestSlotIsTrailingSum(w, h, n);
    SquareSumBound(tail);
    assert |tail| == n;
  }

  /** The judge threshold is non-negative when the `3k`-price sums satisfy Cauchy-Schwarz. */
  lemma JudgeFromSpread(c: MomentumCoef, price: real, sumT: real, sum3T: real, squaresT: real, squares3T: real)
    requires CoefOk(c) && c.judgeCoef >= 0.0
    requires (3 * c.decisionTime) as real * squares3T >= sum3T * sum3T
    ensures StatsFrom(c, price, sumT, sum3T, squaresT, squares3T).judge >= 0.0
  {
    var m := (3 * c.decisionTime) as real;
    var spread := squares3T - m * ((sum3T / m) * (sum3T / m));
    SpreadNonNegative(squares3T, sum3T, m);
    NonNegativeProduct(c.judgeCoef, spread);
  }

  lemma NonNegativeProduct(a: real, b: real)
    requires a >= 0.0 && b >= 0.0
    ensures a * b >= 0.0
  {
  }

  /** `q - m * (t / m)^2 >= 0` whenever `m * q >= t^2` and `m > 0`. */
  lemma SpreadNonNegative(q: real, t: real, m: real)
    requires m > 0.0 && m * q >= t * t
    ensures q - m * ((t / m) * (t / m)) >= 0.0
  {
    var a := t / m;
    assert a * m == t;
    assert m * (a * a) * m == t * t;
    assert m * (q - m * (a * a)) == m * q - t * t;
  }

  /**
   * As the source reads them, the statistics of the filling phase take slot
   * 1079, still zero, as the newest running sum: once the window holds
   * `3 * decision_time` prices but stays `decision_time` short of full, the
   * moving average reads 0, so at any positive price every active momentum
   * row takes the risk branch and is told to sell its whole holding.
   */
  lemma FillingPhaseLiquidates(w: Window, h: seq<real>, t: Trader, c: MomentumCoef, bankruptcyCash: real,
                                price: real, d: MomentumDraw)
    requires Tracks(w, h) && CoefOk(c) && price > 0.0
    requires 3 * c.decisionTime <= |h| && |h| + c.decisionTime < Capacity
    requires Ready(t, bankruptcyCash)
    ensures w.len == |h|
    ensures MomentumStats(w, LastSlot, c, price).ma == 0.0
    ensures AtRisk(t, c, w, LastSlot, bankruptcyCash, price)
    ensures MomentumRow(t, c, w, LastSlot, bankruptcyCash, price, d).order == -t.positions
  {
    LastSlotReadsZeroWhileFilling(w, h, c.decisionTime);
  }

  /**
   * In the last `decision_time` appends of the filling phase the source reads
   * the moving average as minus the sum of the first `1080 - decision_time`
   * prices over `decision_time`.  For non-negative prices it is never
   * positive, so with a non-negative risk coefficient (the source draws it
   * from [1.05, 1.15]) every active row is again told to sell everything.
   */
  lemma LateFillingPhaseLiquidates(w: Window, h: seq<real>, t: Trader, c: MomentumCoef, bankruptcyCash: real,
                                   price: real, d: MomentumDraw)
    requires Tracks(w, h) && CoefOk(c) && c.riskCoef >= 0.0 && price > 0.0
    requires 3 * c.decisionTime <= |h| < Capacity <= |h| + c.decisionTime
    requires forall i :: 0 <= i < |h| ==> h[i] >= 0.0
    requires Ready(t, bankruptcyCash)
    ensures w.len == |h|
    ensures MomentumStats(w, LastSlot, c, price).ma == -Sum(h[..Capacity - c.decisionTime]) / c.decisionTime as real
    ensures MomentumStats(w, LastSlot, c, price).ma <= 0.0
    ensures AtRisk(t, c, w, LastSlot, bankruptcyCash, price)
    ensures MomentumRow(t, c, w, LastSlot, bankruptcyCash, price, d).order == -t.positions
  {
    var k := c.decisionTime;
    LastSlotReadsNegatedPrefixLateInFilling(w, h, k);
    var prefix := h[..Capacity - k];
    assert forall i :: 0 <= i < |prefix| ==> prefix[i] >= 0.0;
    SumNonNegative(prefix);
    var ma := MomentumStats(w, LastSlot, c, price).ma;
    assert ma <= 0.0;
    assert ma * c.riskCoef <= 0.0;
  }

  /** Once the window is full the source's reads coincide with the newest-slot reads. */
  lemma FullWindowReadersAgree(w: Window, h: seq<real>, c: MomentumCoef, price: real)
    requires Tracks(w, h) && CoefOk(c) && |h| >= Capacity
    ensures w.len == Capacity
    ensures MomentumStats(w, LastSlot, c, price) == MomentumStats(w, NewestSlot, c, price)
  {
    var k := c.decisionTime;
    assert WindowSum(w, LastSlot, k) == WindowSum(w, NewestSlot, k);
    assert WindowSum(w, LastSlot, 3 * k) == WindowSum(w, NewestSlot, 3 * k);
    assert WindowSquareSum(w, LastSlot, k) == WindowSquareSum(w, NewestSlot, k);
    assert WindowSquareSum(w, LastSlot, 3 * k) == WindowSquareSum(w, NewestSlot, 3 * k);
  }

  // ---------------------------------------------------------------- value pool

  /** The per-row draws of one value-investor tick. */
  datatype ValueDraw = ValueDraw(estimateNoise: real, buyFraction: real, sellFraction: real, wait: nat)

  datatype ValuePool = ValuePool(traders: seq<Trader>, judgeCoefs: seq<real>, bankruptcyCash: real)

  /** The value investor's buy band `0.9 * IV * (1 + bias)` with `IV = basic * (1 + noise)`. */
  function BuyBand(basicValue: real, noise: real, bias: real): real
  {
    0.9 * (basicValue * (1.0 + noise)) * (1.0 + bias)
  }

  /** The value investor's sell band `1.1 * IV * (1 + bias)`. */
  function SellBand(basicValue: real, noise: real, bias: real): real
  {
    1.1 * (basicValue * (1.0 + noise)) * (1.0 + bias)
  }

  /**
   * The value pool's order for one row: the forced sell of a bankrupt row;
   * for an active row a buy under the buy band and a sell over the sell band
   * (assigned last).  When the biased estimate is non-negative the bands are
   * ordered, so at most one of the two applies.
   */
  function ValueRow(t: Trader, bias: real, bankruptcyCash: real, price: real, basicValue: real,
                    d: ValueDraw): (r: Trader)
    requires price > 0.0
    ensures r.cash == t.cash && r.positions == t.positions
    ensures r.cooldown == StepCooldown(t.cooldown, d.wait)
    ensures Bankrupt(t, bankruptcyCash) ==> r.order == -RescueSize(t, bankruptcyCash, price, 0)
    ensures Ready(t, bankruptcyCash) && price > SellBand(basicValue, d.estimateNoise, bias) ==>
              r.order == -SellSize(t, d.sellFraction)
    ensures Ready(t, bankruptcyCash) && price < BuyBand(basicValue, d.estimateNoise, bias) &&
            basicValue * (1.0 + d.estimateNoise) * (1.0 + bias) >= 0.0 ==>
              r.order == BuySize(t, price, d.buyFraction)
    ensures !Bankrupt(t, bankruptcyCash) &&
            !(Ready(t, bankruptcyCash) && (price < BuyBand(basicValue, d.estimateNoise, bias) ||
                                           price > SellBand(basicValue, d.estimateNoise, bias))) ==>
              r.order == t.order
  {
    var o1 := RescueOrder(t, bankruptcyCash, price, 0);
    var buy := Ready(t, bankruptcyCash) && price < BuyBand(basicValue, d.estimateNoise, bias);
    var sell := Ready(t, bankruptcyCash) && price > SellBand(basicValue, d.estimateNoise, bias);
    var o2 := if buy then BuySize(t, price, d.buyFraction) else o1;
    var o3 := if sell then -SellSize(t, d.sellFraction) else o2;
    t.(order := o3, cooldown := StepCooldown(t.cooldown, d.wait))
  }

  /** The wait draw of one value-investor row. */
  function ValueWait(d: ValueDraw): nat
  {
    d.wait
  }

  /** The order stage of a value-investor tick. */
  function ValueOrders(p: ValuePool, price: real, basicValue: real, draws: seq<ValueDraw>): (o: seq<Trader>)
    requires price > 0.0 && |p.judgeCoefs| == |p.traders| && |draws| == |p.traders|
    ensures |o| == |p.traders|
    ensures OrdersFrom(p.traders, o, Waits(draws, ValueWait))
  {
    seq(|p.traders|, i requires 0 <= i < |p.traders| =>
          ValueRow(p.traders[i], p.judgeCoefs[i], p.bankruptcyCash, price, basicValue, draws[i]))
  }

  /**
   * `ValueInvestors.tick_decision`: every row settles the order `ValueRow`
   * gave it, and the totals are the fills of those orders.
   */
  function ValueTickDecision(p: ValuePool, price: real, basicValue: real, draws: seq<ValueDraw>)
    : (r: (ValuePool, TickTotals))
    requires price > 0.0 && |p.judgeCoefs| == |p.traders| && |draws| == |p.traders|
    ensures r.0.judgeCoefs == p.judgeCoefs && r.0.bankruptcyCash == p.bankruptcyCash
    ensures var orders := ValueOrders(p, price, basicValue, draws);
            SettledRows(orders, r.0.traders, price) && TotalsWithin(orders, r.1)
    ensures forall i :: 0 <= i < |p.traders| ==>
              && r.0.traders[i].cooldown == StepCooldown(p.traders[i].cooldown, draws[i].wait)
              && Wealth(r.0.traders[i], price) == Wealth(p.traders[i], price)
    ensures AllIdle(p.traders) ==> AllIdle(r.0.traders)
  {
    var orders := ValueOrders(p, price, basicValue, draws);
    var c := FinishPositionChange(orders, price);
    ClearPool(p.traders, orders, Waits(draws, ValueWait), price);
    (p.(traders := c.traders), TickTotals(c.buyAmount, c.sellAmount))
  }

  /** Over solvent rows, each value total is the requested volume exactly when no row on its side was clamped. */
  lemma ValueTotalsAreFills(p: ValuePool, price: real, basicValue: real, draws: seq<ValueDraw>)
    requires price > 0.0 && |p.judgeCoefs| == |p.traders| && |draws| == |p.traders|
    requires forall i :: 0 <= i < |p.traders| ==> Solvent(p.traders[i])
    ensures TotalsExact(ValueOrders(p, price, basicValue, draws), ValueTickDecision(p, price, basicValue, draws).1, price)
  {
    ClearedTotalsExact(ValueOrders(p, price, basicValue, draws), price);
  }
}
