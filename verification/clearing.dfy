/**
 * The vectorized clearing step `finish_position_change`: every row of a trader
 * population settles its signed order at one quoted price, clamped by its own
 * cash (buyers) or holdings (sellers).  The numpy masks act row by row, so the
 * batch is the row-wise settlement of each trader plus two reductions.
 */
module Clearing {

  /** One row of a trader population (the shared columns of every pool). */
  datatype Trader = Trader(cash: real, positions: int, order: int, cooldown: int)

  /** Value of a row at the quoted price: cash plus holdings marked to market. */
  function Wealth(t: Trader, price: real): real
  {
    t.cash + t.positions as real * price
  }

  predicate Solvent(t: Trader)
  {
    t.cash >= 0.0 && t.positions >= 0
  }

  /** A buyer that cannot pay for its whole order. */
  predicate CashConstrained(t: Trader, price: real)
  {
    t.order > 0 && t.cash < t.order as real * price
  }

  /** A seller that would end up short. */
  predicate PositionConstrained(t: Trader)
  {
    t.order < 0 && t.positions + t.order < 0
  }

  /** The settled row and the signed quantity left in its order column. */
  datatype Settled = Settled(trader: Trader, fill: int)

  /** Buying `floor(cash / price)` units leaves between nothing and one unit's price. */
  lemma FloorFill(cash: real, price: real)
    requires price > 0.0 && cash >= 0.0
    ensures (cash / price).Floor >= 0
    ensures 0.0 <= cash - (cash / price).Floor as real * price < price
  {
    var q := cash / price;
    var f := q.Floor as real;
    assert q * price == cash;
    var r := q - f;
    FractionOfPrice(r, price);
    assert cash - f * price == r * price;
    assert cash - f * price < price;
  }

  /** A fraction in `[0, 1)` of a positive price lies in `[0, price)`. */
  lemma FractionOfPrice(r: real, price: real)
    requires 0.0 <= r < 1.0 && price > 0.0
    ensures 0.0 <= r * price < price
  {
    assert price - r * price == (1.0 - r) * price;
  }

  predicate FloorFills(cash: real, price: real, order: int)
    requires price > 0.0
  {
    var f := (cash / price).Floor;
    cash < order as real * price ==> 0 <= f < order && 0.0 <= cash - f as real * price < price
  }

  lemma FloorFillsHolds(cash: real, price: real, order: int)
    requires price > 0.0 && cash >= 0.0
    ensures FloorFills(cash, price, order)
  {
    FloorFill(cash, price);
    assert (cash / price) * price == cash;
    if cash < order as real * price {
      assert cash / price < order as real;
    }
  }

  /**
   * Settlement of one row: the three masked stages of the source applied in
   * order, each reading the columns as the previous stage left them.
   */
  function SettleRow(t: Trader, price: real): (s: Settled)
    requires price > 0.0
    ensures s.trader.order == 0 && s.trader.cooldown == t.cooldown
    ensures Wealth(s.trader, price) == Wealth(t, price)
    ensures CashConstrained(t, price) && t.cash >= 0.0 ==>
              && s.fill == (t.cash / price).Floor
              && 0 <= s.fill < t.order
              && s.trader.positions == t.positions + s.fill
              && 0.0 <= s.trader.cash < price
    ensures PositionConstrained(t) ==>
              && s.fill == -t.positions
              && s.trader.positions == 0
              && s.trader.cash == t.cash + t.positions as real * price
    ensures !CashConstrained(t, price) && !PositionConstrained(t) ==>
              && s.fill == t.order
              && s.trader.positions == t.positions + t.order
              && s.trader.cash == t.cash - t.order as real * price
    ensures Solvent(t) ==> Solvent(s.trader)
  {
    StagesKeepWealth(t, price);
    if CashConstrained(t, price) && t.cash >= 0.0 then
      StagesBuyShortOfCash(t, price);
      Stages(t, price)
    else
      Stages(t, price)
  }

  /** The three stages as the source writes them, column by column. */
  function Stages(t: Trader, price: real): Settled
    requires price > 0.0
  {
    var poor := CashConstrained(t, price);
    // buyers short of cash buy what they can afford
    var o1 := if poor then (t.cash / price).Floor else t.order;
    var p1 := if poor then t.positions + o1 else t.positions;
    var c1 := if poor then t.cash - o1 as real * price else t.cash;
    // sellers short of stock, judged on the columns as stage one left them
    var short := o1 < 0 && p1 + o1 < 0;
    var o2 := if short then -p1 else o1;
    var c2 := if short then c1 - o2 as real * price else c1;
    var p2 := if short then 0 else p1;
    // everyone else fills exactly
    var others := !(short || poor);
    var p3 := if others then p2 + o2 else p2;
    var c3 := if others then c2 - o2 as real * price else c2;
    Settled(Trader(c3, p3, 0, t.cooldown), o2)
  }

  /** Every stage moves value between cash and holdings at the quoted price, and clears the order. */
  lemma StagesKeepWealth(t: Trader, price: real)
    requires price > 0.0
    ensures var s := Stages(t, price);
            && s.trader.order == 0 && s.trader.cooldown == t.cooldown
            && Wealth(s.trader, price) == Wealth(t, price)
  {
  }

  /** A solvent buyer short of cash buys the units it can afford and keeps less than one unit's price. */
  lemma StagesBuyShortOfCash(t: Trader, price: real)
    requires price > 0.0 && CashConstrained(t, price) && t.cash >= 0.0
    ensures var s := Stages(t, price);
            && s.fill == (t.cash / price).Floor
            && 0 <= s.fill < t.order
            && s.trader.positions == t.positions + s.fill
            && 0.0 <= s.trader.cash < price
  {
    FloorFillsHolds(t.cash, price, t.order);
  }

  /** The side a row's ORIGINAL order puts it on (the masks taken at :5-6). */
  predicate OnSide(t: Trader, buying: bool)
  {
    if buying then t.order > 0 else t.order < 0
  }

  /** Total requested volume on one side: the positive orders, or the negative ones. */
  function Requested(ts: seq<Trader>, buying: bool): int
  {
    if |ts| == 0 then 0
    else Requested(ts[..|ts| - 1], buying) + (if OnSide(ts[|ts| - 1], buying) then ts[|ts| - 1].order else 0)
  }

  /**
   * Sum of the settled order column over the rows whose original order was on
   * one side: the quantity the market is told about.
   */
  function FillSum(ts: seq<Trader>, price: real, buying: bool): (r: int)
    requires price > 0.0
    ensures buying && (forall i :: 0 <= i < |ts| ==> ts[i].cash >= 0.0) ==> 0 <= r <= Requested(ts, true)
    ensures !buying && (forall i :: 0 <= i < |ts| ==> ts[i].positions >= 0) ==> Requested(ts, false) <= r <= 0
  {
    if |ts| == 0 then 0
    else
      var last := ts[|ts| - 1];
      FillSum(ts[..|ts| - 1], price, buying) + (if OnSide(last, buying) then SettleRow(last, price).fill else 0)
  }

  /** The result of clearing a population: its rows and the (buy, sell) totals. */
  datatype Clearing = Clearing(traders: seq<Trader>, buyAmount: int, sellAmount: int)

  /**
   * `finish_position_change`: every row settles at `price`; the buy total sums
   * the post-clamp fills of the original buyers (never negative when no cash is
   * negative) and the sell total those of the original sellers (never positive).
   */
  function FinishPositionChange(ts: seq<Trader>, price: real): (c: Clearing)
    requires price > 0.0
    ensures |c.traders| == |ts|
    ensures forall i :: 0 <= i < |ts| ==> c.traders[i] == SettleRow(ts[i], price).trader
    ensures forall i :: 0 <= i < |ts| ==> c.traders[i].order == 0 && c.traders[i].cooldown == ts[i].cooldown
    ensures forall i :: 0 <= i < |ts| ==> Wealth(c.traders[i], price) == Wealth(ts[i], price)
    ensures forall i :: 0 <= i < |ts| ==> Solvent(ts[i]) ==> Solvent(c.traders[i])
    ensures forall i :: 0 <= i < |ts| ==> !CashConstrained(ts[i], price) && !PositionConstrained(ts[i]) ==>
              c.traders[i].positions == ts[i].positions + ts[i].order
    ensures (forall i :: 0 <= i < |ts| ==> ts[i].cash >= 0.0) ==> 0 <= c.buyAmount <= Requested(ts, true)
    ensures (forall i :: 0 <= i < |ts| ==> ts[i].positions >= 0) ==> Requested(ts, false) <= c.sellAmount <= 0
  {
    Clearing(seq(|ts|, i requires 0 <= i < |ts| => SettleRow(ts[i], price).trader),
             FillSum(ts, price, true),
             FillSum(ts, price, false))
  }

  /**
   * The buy total equals the requested buy volume exactly when no buyer was
   * short of cash: the reported totals are fills, not intentions.
   */
  lemma {:induction false} BuyTotalIsRequestedIff(ts: seq<Trader>, price: real)
    requires price > 0.0
    requires forall i :: 0 <= i < |ts| ==> ts[i].cash >= 0.0
    ensures FinishPositionChange(ts, price).buyAmount == Requested(ts, true)
            <==> forall i :: 0 <= i < |ts| ==> !CashConstrained(ts[i], price)
  {
    FillSumIsRequestedIff(ts, price, true);
  }

  /**
   * The sell total equals the requested sell volume exactly when no seller
   * was short of stock.
   */
  lemma {:induction false} SellTotalIsRequestedIff(ts: seq<Trader>, price: real)
    requires price > 0.0
    requires forall i :: 0 <= i < |ts| ==> ts[i].positions >= 0
    ensures FinishPositionChange(ts, price).sellAmount == Requested(ts, false)
            <==> forall i :: 0 <= i < |ts| ==> !PositionConstrained(ts[i])
  {
    FillSumIsRequestedIff(ts, price, false);
  }

  /** Shared induction: every term is clamped toward zero, so the sums agree iff every term does. */
  lemma {:induction false} FillSumIsRequestedIff(ts: seq<Trader>, price: real, buying: bool)
    requires price > 0.0
    requires buying ==> forall i :: 0 <= i < |ts| ==> ts[i].cash >= 0.0
    requires !buying ==> forall i :: 0 <= i < |ts| ==> ts[i].positions >= 0
    ensures FillSum(ts, price, buying) == Requested(ts, buying)
            <==> forall i :: 0 <= i < |ts| ==> Unclamped(ts[i], price, buying)
  {
    if |ts| > 0 {
      var init := ts[..|ts| - 1];
      var last := ts[|ts| - 1];
      FillSumIsRequestedIff(init, price, buying);
      var s := SettleRow(last, price);
      var term := if OnSide(last, buying) then s.fill else 0;
      var req := if OnSide(last, buying) then last.order else 0;
      assert term == req <==> Unclamped(last, price, buying);
      if buying {
        assert FillSum(init, price, true) <= Requested(init, true);
        assert term <= req;
      } else {
        assert FillSum(init, price, false) >= Requested(init, false);
        assert term >= req;
      }
      if forall i :: 0 <= i < |ts| ==> Unclamped(ts[i], price, buying) {
        assert forall i :: 0 <= i < |init| ==> Unclamped(init[i], price, buying) by {
          forall i | 0 <= i < |init| ensures Unclamped(init[i], price, buying) {
            assert init[i] == ts[i];
          }
        }
      }
      if !(forall i :: 0 <= i < |ts| ==> Unclamped(ts[i], price, buying)) {
        var k :| 0 <= k < |ts| && !Unclamped(ts[k], price, buying);
        if k < |init| {
          assert init[k] == ts[k];
        }
      }
    }
  }

  /** A row whose order on the given side is not clamped by the clearing step. */
  predicate Unclamped(t: Trader, price: real, buying: bool)
  {
    if buying then !CashConstrained(t, price) else !PositionConstrained(t)
  }
}
