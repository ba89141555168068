/**
 * The scalar market node (`market.Node`): signed order flow accumulates in a
 * buy and a sell bucket; once per tick the node records the price, moves its
 * depth proxy toward the traded volume inside [500, 5000], applies a
 * square-root price impact damped by a Gaussian factor, caps the day's rise
 * at 7% over the day's first tick, and recomputes its sentiment index.  Once
 * per day it archives an OHLC bar and shifts value, depth and price overnight.
 *
 * `sqrt`, `exp`, `tanh` and `round(., 4)` are total functions passed in a
 * `Numerics` record, constrained only by `Lawful`; every random draw is an
 * argument.
 */
module MarketNode {
  import opened Numeric

  const PriceSensitivity: real := 0.0004
  const DayLimit: real := 0.07
  const StartPrice: real := 27.0
  const StartValue: real := 30.0
  const StartDepth: real := 1000.0
  const MinDepth: int := 500
  const MaxDepth: int := 5000
  const RecentTicks: nat := 1080
  const ShortHistory: nat := 600

  /** The transcendental and rounding functions the node calls. */
  datatype Numerics = Numerics(sqrt: real -> real, exp: real -> real, tanh: real -> real, round4: real -> real)

  /**
   * What the model assumes of them: `sqrt` is positive on positive inputs,
   * `exp` is positive, `tanh` vanishes at 0 and is strictly increasing.
   */
  ghost predicate Lawful(f: Numerics)
  {
    && (forall x :: x > 0.0 ==> f.sqrt(x) > 0.0)
    && (forall x :: f.exp(x) > 0.0)
    && f.tanh(0.0) == 0.0
    && (forall x, y :: x < y ==> f.tanh(x) < f.tanh(y))
  }

  /** The four per-day lists of the OHLC history. */
  datatype DayBars = DayBars(high: seq<real>, low: seq<real>, open: seq<real>, close: seq<real>)

  /**
   * The node's state.  `depth` is a float after the night shift and an
   * integer after every tick, so it is a real here.
   */
  datatype Node = Node(buy: int, sell: int, price: real, days: DayBars, basicValue: real,
                       depth: real, msi: real, ticks: seq<real>)

  /** The day lists are equally long and every bar has its open and close inside [low, high]. */
  predicate BarsOk(d: DayBars)
  {
    && |d.low| == |d.high| && |d.open| == |d.high| && |d.close| == |d.high|
    && forall i :: 0 <= i < |d.high| ==>
         d.low[i] <= d.open[i] <= d.high[i] && d.low[i] <= d.close[i] <= d.high[i]
  }

  /** The state invariant: non-negative buckets and well-formed bars. */
  predicate NodeOk(n: Node)
  {
    n.buy >= 0 && n.sell >= 0 && BarsOk(n.days)
  }

  /** The three draws of the constructor's first bar, offsets from the start price. */
  datatype InitDraw = InitDraw(highGap: real, lowGap: real, openGap: real)

  /**
   * The constructor: price 27, value 30, depth 1000, empty buckets and tick
   * history, and one bar with high and low 1.5 to 2 away from the price and
   * the open within 1.2 of it (the ranges the draws come from).
   */
  function InitNode(u: InitDraw): (n: Node)
    requires 1.5 <= u.highGap <= 2.0 && 1.5 <= u.lowGap <= 2.0 && -1.2 <= u.openGap <= 1.2
    ensures NodeOk(n) && |n.days.high| == 1 && n.ticks == []
    ensures n.price == StartPrice && n.basicValue == StartValue && n.depth == StartDepth
    ensures n.buy == 0 && n.sell == 0 && n.msi == 0.0
    ensures n.days.high == [StartPrice + u.highGap] && n.days.low == [StartPrice - u.lowGap]
    ensures n.days.open == [StartPrice + u.openGap] && n.days.close == [StartPrice]
    ensures n.days.low[0] < n.price < n.days.high[0]
  {
    Node(0, 0, StartPrice,
         DayBars([StartPrice + u.highGap], [StartPrice - u.lowGap], [StartPrice + u.openGap], [StartPrice]),
         StartValue, StartDepth, 0.0, [])
  }

  // -------------------------------------------------------------- order flow

  /** `clinch`: a positive change goes to the buy bucket, anything else negated to the sell bucket. */
  function Clinch(n: Node, change: int): (r: Node)
    ensures r.buy - r.sell == n.buy - n.sell + change
    ensures r.buy >= n.buy && r.sell >= n.sell
    ensures change > 0 ==> r.sell == n.sell
    ensures change <= 0 ==> r.buy == n.buy
    ensures r.(buy := n.buy, sell := n.sell) == n
    ensures NodeOk(n) ==> NodeOk(r)
  {
    if change > 0 then n.(buy := n.buy + change) else n.(sell := n.sell - change)
  }

  /** The changes of several `clinch` calls, applied in order. */
  function ClinchAll(n: Node, changes: seq<int>): Node
  {
    if |changes| == 0 then n else Clinch(ClinchAll(n, changes[..|changes| - 1]), changes[|changes| - 1])
  }

  function IntSum(s: seq<int>): int
  {
    if |s| == 0 then 0 else IntSum(s[..|s| - 1]) + s[|s| - 1]
  }

  function AbsSum(s: seq<int>): int
  {
    if |s| == 0 then 0 else AbsSum(s[..|s| - 1]) + (if s[|s| - 1] < 0 then -s[|s| - 1] else s[|s| - 1])
  }

  /**
   * Over a tick's `clinch` calls the bucket difference moves by the net flow
   * and the bucket total by the gross flow, and nothing else changes.
   */
  lemma {:induction false} ClinchAllFlow(n: Node, changes: seq<int>)
    ensures ClinchAll(n, changes).buy - ClinchAll(n, changes).sell == n.buy - n.sell + IntSum(changes)
    ensures ClinchAll(n, changes).buy + ClinchAll(n, changes).sell == n.buy + n.sell + AbsSum(changes)
    ensures ClinchAll(n, changes).(buy := n.buy, sell := n.sell) == n
    ensures NodeOk(n) ==> NodeOk(ClinchAll(n, changes))
    decreases |changes|
  {
    if |changes| > 0 {
      ClinchAllFlow(n, changes[..|changes| - 1]);
    }
  }

  // ------------------------------------------------------------------- ticks

  /** The depth target `0.9 * depth + 0.1 * (buy + sell)` before truncation and clamping. */
  function DepthTarget(n: Node): real
  {
    0.9 * n.depth + 0.1 * (n.buy + n.sell) as real
  }

  /** `__update_depth`: the truncated target, raised to 500 and then capped at 5000. */
  function UpdateDepth(n: Node): (r: Node)
    ensures MinDepth as real <= r.depth <= MaxDepth as real
    ensures r.depth.Floor as real == r.depth
    ensures DepthTarget(n) < MinDepth as real ==> r.depth == MinDepth as real
    ensures MinDepth as real <= DepthTarget(n) < (MaxDepth + 1) as real ==> r.depth == DepthTarget(n).Floor as real
    ensures DepthTarget(n) >= MaxDepth as real ==> r.depth == MaxDepth as real
    ensures r.(depth := n.depth) == n
  {
    n.(depth := Min(Max(MinDepth, Trunc(DepthTarget(n))), MaxDepth) as real)
  }

  function Abs(x: real): (r: real)
    ensures r >= 0.0 && (r == x || r == -x)
  {
    if x < 0.0 then -x else x
  }

  /**
   * The relative price move of a tick: the imbalance over the square root of
   * volume plus depth, damped by `exp(-0.1 * (|imbalance| / depth)^2)`.
   * It has the sign of the imbalance.
   */
  function Impact(f: Numerics, buy: int, sell: int, depth: real): (r: real)
    requires Lawful(f) && depth > 0.0 && (buy + sell) as real + depth > 0.0
    ensures r > 0.0 <==> buy > sell
    ensures r < 0.0 <==> buy < sell
    ensures r == 0.0 <==> buy == sell
  {
    var imbalance := (buy - sell) as real;
    var root := f.sqrt((buy + sell) as real + depth);
    var ratio := Abs(imbalance) / depth;
    var damping := f.exp(-0.1 * (ratio * ratio));
    SignOfScaled(imbalance, 1.0 / root, damping);
    imbalance / root * damping
  }

  /** `x * a * b` has the sign of `x` when `a` and `b` are positive. */
  lemma SignOfScaled(x: real, a: real, b: real)
    requires a > 0.0 && b > 0.0
    ensures x * a * b > 0.0 <==> x > 0.0
    ensures x * a * b < 0.0 <==> x < 0.0
  {
    if x > 0.0 {
      assert x * a > 0.0;
    } else if x < 0.0 {
      assert (-x) * a > 0.0;
      assert (-x) * a * b > 0.0;
    }
  }

  /** `__update_MSI`: `tanh(5 * (buy - sell) / depth)`, which has the sign of the imbalance. */
  function Msi(f: Numerics, buy: int, sell: int, depth: real): (r: real)
    requires Lawful(f) && depth > 0.0
    ensures r > 0.0 <==> buy > sell
    ensures r < 0.0 <==> buy < sell
    ensures r == 0.0 <==> buy == sell
  {
    var x := (5 * (buy - sell)) as real / depth;
    assert x > 0.0 <==> buy > sell;
    assert x < 0.0 <==> buy < sell;
    f.tanh(x)
  }

  /** The price after the impact and before the noise and rounding. */
  function ImpactedPrice(f: Numerics, n: Node): real
    requires Lawful(f) && n.depth > 0.0 && (n.buy + n.sell) as real + n.depth > 0.0
  {
    n.price * (1.0 + Impact(f, n.buy, n.sell, n.depth) * PriceSensitivity)
  }

  /** The rounded noisy price the circuit breaker then inspects. */
  function ProposedPrice(f: Numerics, n: Node, noise: real): real
    requires Lawful(f) && n.depth > 0.0 && (n.buy + n.sell) as real + n.depth > 0.0
  {
    f.round4(ImpactedPrice(f, n) + noise)
  }

  /**
   * The circuit breaker's test `(p - t0) / t0 >= 0.07`. The day's first tick
   * is always a Python float (the price is re-cast with `float` every tick and
   * the night gap draws are scalars), so a zero `t0` raises instead.
   */
  predicate Tripped(p: real, t0: real)
    requires t0 != 0.0
  {
    (p - t0) / t0 >= DayLimit
  }

  /** A tick either prices the node or stops where Python raises `ZeroDivisionError`. */
  datatype TickResult = Ticked(node: Node) | ZeroDayOpen

  /**
   * `__update_price`: impact, noise, rounding, then the upward-only breaker.
   * With a positive day open the price never exceeds 107% of it; a proposed
   * price under that bound, however low, is kept.  With a negative open the
   * same test pulls a proposed price at or below 107% of the open up to it.
   */
  function UpdatePrice(f: Numerics, n: Node, noise: real): (r: TickResult)
    requires Lawful(f) && |n.ticks| > 0 && n.depth > 0.0 && (n.buy + n.sell) as real + n.depth > 0.0
    ensures r.ZeroDayOpen? <==> n.ticks[0] == 0.0
    ensures r.Ticked? ==> r.node.(price := n.price) == n
    ensures n.ticks[0] > 0.0 ==> r.Ticked? && r.node.price <= n.ticks[0] * (1.0 + DayLimit)
    ensures n.ticks[0] > 0.0 && ProposedPrice(f, n, noise) < n.ticks[0] * (1.0 + DayLimit) ==>
              r.Ticked? && r.node.price == ProposedPrice(f, n, noise)
    ensures n.ticks[0] > 0.0 && ProposedPrice(f, n, noise) >= n.ticks[0] * (1.0 + DayLimit) ==>
              r.Ticked? && r.node.price == n.ticks[0] * (1.0 + DayLimit)
    ensures n.ticks[0] < 0.0 && ProposedPrice(f, n, noise) > n.ticks[0] * (1.0 + DayLimit) ==>
              r.Ticked? && r.node.price == ProposedPrice(f, n, noise)
    ensures n.ticks[0] < 0.0 && ProposedPrice(f, n, noise) <= n.ticks[0] * (1.0 + DayLimit) ==>
              r.Ticked? && r.node.price == n.ticks[0] * (1.0 + DayLimit)
  {
    var p := ProposedPrice(f, n, noise);
    var t0 := n.ticks[0];
    if t0 == 0.0 then ZeroDayOpen
    else
      BreakerAtPositiveOpen(p, t0);
      BreakerAtNegativeOpen(p, t0);
      Ticked(n.(price := if Tripped(p, t0) then t0 * (1.0 + DayLimit) else p))
  }

  /** With a positive open the breaker trips exactly at 107% of it. */
  lemma BreakerAtPositiveOpen(p: real, t0: real)
    ensures t0 > 0.0 ==> (Tripped(p, t0) <==> p >= t0 * (1.0 + DayLimit))
  {
    if t0 > 0.0 {
      QuotientBound(p - t0, t0, DayLimit);
    }
  }

  /** With a negative open the division flips the test: it trips at or below 107% of the open. */
  lemma BreakerAtNegativeOpen(p: real, t0: real)
    ensures t0 < 0.0 ==> (Tripped(p, t0) <==> p <= t0 * (1.0 + DayLimit))
  {
    if t0 < 0.0 {
      QuotientBound(t0 - p, -t0, DayLimit);
      assert (p - t0) / t0 == (t0 - p) / -t0;
    }
  }

  /** For a positive divisor, `a / d >= c` exactly when `a >= c * d`. */
  lemma QuotientBound(a: real, d: real, c: real)
    requires d > 0.0
    ensures a / d >= c <==> a >= c * d
  {
    var q := a / d;
    assert q * d == a;
    if q >= c {
      assert (q - c) * d >= 0.0;
    } else {
      assert (c - q) * d > 0.0;
    }
  }

  /** Before noise and rounding, net buying raises a positive price and net selling lowers it. */
  lemma ImpactMovesPriceWithFlow(f: Numerics, n: Node)
    requires Lawful(f) && n.depth > 0.0 && (n.buy + n.sell) as real + n.depth > 0.0 && n.price > 0.0
    ensures ImpactedPrice(f, n) > n.price <==> n.buy > n.sell
    ensures ImpactedPrice(f, n) < n.price <==> n.buy < n.sell
    ensures ImpactedPrice(f, n) == n.price <==> n.buy == n.sell
  {
    var i := Impact(f, n.buy, n.sell, n.depth);
    assert ImpactedPrice(f, n) - n.price == n.price * (i * PriceSensitivity);
  }

  /**
   * `tick_update`: record the current price, then update the depth, the price
   * and the sentiment index (both dividing by the new depth, at least 500),
   * and empty both buckets.  The new price is the rounded, noisy impact
   * price computed at the new depth, unless that reaches 107% of the day's
   * first tick, where the breaker holds it.
   */
  function TickUpdate(f: Numerics, n: Node, noise: real): (r: TickResult)
    requires Lawful(f) && n.buy >= 0 && n.sell >= 0
    ensures r.ZeroDayOpen? <==> (n.ticks + [n.price])[0] == 0.0
    ensures r.Ticked? ==>
              && r.node.ticks == n.ticks + [n.price]
              && r.node.buy == 0 && r.node.sell == 0
              && r.node.days == n.days && r.node.basicValue == n.basicValue
              && r.node.depth == UpdateDepth(n.(ticks := n.ticks + [n.price])).depth
              && MinDepth as real <= r.node.depth <= MaxDepth as real
              && (r.node.msi > 0.0 <==> n.buy > n.sell)
              && (r.node.msi < 0.0 <==> n.buy < n.sell)
              && (r.node.msi == 0.0 <==> n.buy == n.sell)
              && (NodeOk(n) ==> NodeOk(r.node))
    ensures var proposed := ProposedPrice(f, UpdateDepth(n.(ticks := n.ticks + [n.price])), noise);
            var cap := (n.ticks + [n.price])[0] * (1.0 + DayLimit);
            (n.ticks + [n.price])[0] > 0.0 ==>
              && r.Ticked? && r.node.price <= cap
              && (proposed < cap ==> r.node.price == proposed)
              && (proposed >= cap ==> r.node.price == cap)
  {
    var recorded := n.(ticks := n.ticks + [n.price]);
    var deep := UpdateDepth(recorded);
    match UpdatePrice(f, deep, noise)
    case ZeroDayOpen => ZeroDayOpen
    case Ticked(priced) => Ticked(priced.(msi := Msi(f, n.buy, n.sell, deep.depth), buy := 0, sell := 0))
  }

  // -------------------------------------------------------------------- days

  /** The draws of one night: the value shift and the two parts of the price gap. */
  datatype NightDraw = NightDraw(valueShift: real, gapNormal: real, gapLaplace: real)

  /**
   * The value shift actually applied: a negative draw counts double, so the
   * applied shift is never above the draw and has the draw's sign.
   */
  function AppliedShift(valueShift: real): (r: real)
    ensures r <= valueShift
    ensures r < 0.0 <==> valueShift < 0.0
    ensures r == 0.0 <==> valueShift == 0.0
    ensures -0.02 <= valueShift ==> -0.04 <= r
  {
    if valueShift < 0.0 then valueShift * 2.0 else valueShift
  }

  /** The overnight price gap: a normal and a Laplace draw added. */
  function Gap(d: NightDraw): real
  {
    d.gapNormal + d.gapLaplace
  }

  /**
   * `__night_trade`: the value moves by the applied shift, the depth drops to
   * 60% and the price moves by the gap.  A positive value falls exactly on a
   * down draw and rises exactly on an up draw, by at most 4% down or 2% up
   * for draws in the source's range; a positive price moves with the gap's
   * sign; a depth inside [500, 5000] lands inside [300, 3000].
   */
  function NightTrade(n: Node, d: NightDraw): (r: Node)
    ensures r.(basicValue := n.basicValue, depth := n.depth, price := n.price) == n
    ensures NodeOk(n) ==> NodeOk(r)
    ensures n.basicValue > 0.0 ==>
              && (r.basicValue < n.basicValue <==> d.valueShift < 0.0)
              && (r.basicValue > n.basicValue <==> d.valueShift > 0.0)
    ensures n.basicValue > 0.0 && -0.02 <= d.valueShift <= 0.02 ==>
              0.96 * n.basicValue <= r.basicValue <= 1.02 * n.basicValue
    ensures n.depth > 0.0 ==> 0.0 < r.depth < n.depth
    ensures MinDepth as real <= n.depth <= MaxDepth as real ==> 300.0 <= r.depth <= 3000.0
    ensures n.price > 0.0 ==>
              && (r.price > n.price <==> Gap(d) > 0.0)
              && (r.price < n.price <==> Gap(d) < 0.0)
  {
    var shift := AppliedShift(d.valueShift);
    ScaleBy(n.basicValue, shift);
    ScaleBy(n.price, Gap(d));
    n.(basicValue := n.basicValue * (1.0 + shift),
       depth := n.depth * 0.6,
       price := n.price * (1.0 + Gap(d)))
  }

  /** Scaling a positive `x` by `1 + s` moves it by `x * s`, in the direction of `s`. */
  lemma ScaleBy(x: real, s: real)
    ensures x * (1.0 + s) - x == x * s
    ensures x > 0.0 ==> (x * (1.0 + s) < x <==> s < 0.0) && (x * (1.0 + s) > x <==> s > 0.0)
    ensures x > 0.0 && -0.04 <= s <= 0.02 ==> 0.96 * x <= x * (1.0 + s) <= 1.02 * x
  {
    if x > 0.0 {
      if s < 0.0 { assert x * s < 0.0; }
      if s > 0.0 { assert x * s > 0.0; }
      if -0.04 <= s <= 0.02 {
        assert x * (s + 0.04) >= 0.0;
        assert x * (0.02 - s) >= 0.0;
      }
    }
  }

  /**
   * The night shift is asymmetric: a down draw of size `x` moves the value
   * twice as far as an up draw of the same size.
   */
  lemma NightShiftAsymmetry(n: Node, x: real, g1: real, g2: real)
    requires x > 0.0
    ensures n.basicValue - NightTrade(n, NightDraw(-x, g1, g2)).basicValue
            == 2.0 * (NightTrade(n, NightDraw(x, g1, g2)).basicValue - n.basicValue)
  {
  }

  datatype DayResult = Archived(node: Node) | EmptyTickHistory

  /**
   * `day_update`: append the day's high, low, open and close, run the night
   * shift, and restart the tick history at the shifted price.  An empty tick
   * history has no maximum (Python raises on it).
   */
  function DayUpdate(n: Node, d: NightDraw): (r: DayResult)
    ensures r.EmptyTickHistory? <==> |n.ticks| == 0
    ensures r.Archived? ==>
              var b := r.node.days;
              && |b.high| == |n.days.high| + 1 && |b.low| == |n.days.low| + 1
              && |b.open| == |n.days.open| + 1 && |b.close| == |n.days.close| + 1
              && b.high[..|b.high| - 1] == n.days.high && b.low[..|b.low| - 1] == n.days.low
              && b.open[..|b.open| - 1] == n.days.open && b.close[..|b.close| - 1] == n.days.close
              && b.high[|b.high| - 1] in n.ticks && b.low[|b.low| - 1] in n.ticks
              && (forall i :: 0 <= i < |n.ticks| ==> b.low[|b.low| - 1] <= n.ticks[i] <= b.high[|b.high| - 1])
              && b.open[|b.open| - 1] == n.ticks[0]
              && b.close[|b.close| - 1] == n.ticks[|n.ticks| - 1]
    ensures r.Archived? ==> r.node.ticks == [r.node.price] && r.node.(days := n.days, ticks := n.ticks) == NightTrade(n, d)
    ensures r.Archived? && NodeOk(n) ==> NodeOk(r.node)
  {
    if |n.ticks| == 0 then EmptyTickHistory
    else
      var night := NightTrade(n.(days := CloseDay(n.days, n.ticks)), d);
      Archived(night.(ticks := [night.price]))
  }

  /** The bars with the day of tick history `t` appended: its maximum, minimum, first and last tick. */
  function CloseDay(days: DayBars, t: seq<real>): (b: DayBars)
    requires |t| > 0
    ensures |b.high| == |days.high| + 1 && |b.low| == |days.low| + 1
    ensures |b.open| == |days.open| + 1 && |b.close| == |days.close| + 1
    ensures b.high[..|b.high| - 1] == days.high && b.low[..|b.low| - 1] == days.low
    ensures b.open[..|b.open| - 1] == days.open && b.close[..|b.close| - 1] == days.close
    ensures b.high[|b.high| - 1] in t && b.low[|b.low| - 1] in t
    ensures forall i :: 0 <= i < |t| ==> b.low[|b.low| - 1] <= t[i] <= b.high[|b.high| - 1]
    ensures b.open[|b.open| - 1] == t[0] && b.close[|b.close| - 1] == t[|t| - 1]
    ensures BarsOk(days) ==> BarsOk(b)
  {
    var b := DayBars(days.high + [SeqMax(t)], days.low + [SeqMin(t)], days.open + [t[0]], days.close + [t[|t| - 1]]);
    assert b.high[..|b.high| - 1] == days.high && b.low[..|b.low| - 1] == days.low;
    assert b.open[..|b.open| - 1] == days.open && b.close[..|b.close| - 1] == days.close;
    b
  }

  /** `get_1080ticks_history`: the whole history under 600 ticks, else its last 1080 ticks. */
  function Recent(ticks: seq<real>): (r: seq<real>)
    ensures r == ticks[|ticks| - Min(|ticks|, RecentTicks)..]
    ensures |ticks| < ShortHistory ==> r == ticks
  {
    if |ticks| < ShortHistory then ticks
    else if |ticks| <= RecentTicks then ticks
    else ticks[|ticks| - RecentTicks..]
  }
}
