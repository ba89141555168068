/**
 * The C++ `Stock`: an order book plus the intraday bar built from the
 * prices it reports tick by tick, and the history of finished days.
 *
 * `tickUpdate` records the book's current price; from the second tick on it
 * moves the bar's high and low towards the newest price, sets the close to
 * it and the open to the day's first price. Because the bar is untouched on
 * the first tick, the first price counts for the open but not for the high
 * or the low. `dayUpdate` files the bar, forgets the ticks, resets the book
 * and starts a fresh bar.
 */
module Stock {
  import opened Numeric
  import opened OrderBook
  import opened BookInvariants

  /** The `INF` the fresh bar starts from. */
  const Inf: real := 1000000000.0

  datatype Bar = Bar(high: real, low: real, open: real, close: real)

  /** The bar of a day with no completed update yet. */
  const FreshBar: Bar := Bar(-Inf, Inf, 0.0, 0.0)

  datatype Stock = Stock(book: Book, ticks: seq<real>, currentDay: Bar, history: seq<Bar>)

  /**
   * The bar a day's ticks should have produced: nothing before the second
   * tick; then open = first, close = last, and high/low over every tick but
   * the first, clamped by the fresh bar's sentinels.
   */
  function BarOf(ticks: seq<real>): Bar
  {
    if |ticks| <= 1 then FreshBar
    else Bar(MaxReal(-Inf, SeqMax(ticks[1..])), MinReal(Inf, SeqMin(ticks[1..])), ticks[0], ticks[|ticks| - 1])
  }

  /** A well-formed stock: a valid book and a bar that matches the day's ticks. */
  ghost predicate StockOk(st: Stock)
  {
    Valid(st.book) && st.currentDay == BarOf(st.ticks)
  }

  /** The constructor: a fresh book at the start price, no ticks, a fresh bar, no history. */
  function NewStock(startPrice: real): (st: Stock)
    ensures st.book == Init(startPrice) && st.ticks == [] && st.history == []
    ensures StockOk(st)
  {
    InitIsValid(startPrice);
    Stock(Init(startPrice), [], FreshBar, [])
  }

  function TickUpdate(st: Stock): (r: Stock)
    ensures r.ticks == st.ticks + [st.book.currentPrice]
    ensures r.book == st.book && r.history == st.history
    ensures |st.ticks| == 0 ==> r.currentDay == st.currentDay
    ensures |st.ticks| > 0 ==>
              && r.currentDay.open == st.ticks[0] && r.currentDay.close == st.book.currentPrice
              && r.currentDay.low <= st.book.currentPrice <= r.currentDay.high
              && r.currentDay.low <= st.currentDay.low && st.currentDay.high <= r.currentDay.high
  {
    var ticks := st.ticks + [st.book.currentPrice];
    if |ticks| > 1 then
      var last := ticks[|ticks| - 1];
      st.(ticks := ticks,
          currentDay := Bar(MaxReal(st.currentDay.high, last), MinReal(st.currentDay.low, last), ticks[0], last))
    else
      st.(ticks := ticks)
  }

  function DayUpdate(st: Stock): (r: Stock)
    ensures r.history == st.history + [st.currentDay]
    ensures r.ticks == [] && r.currentDay == FreshBar
    ensures r.book == Init(st.book.currentPrice)
    ensures StockOk(r)
  {
    ResetAllIsValid(st.book);
    Stock(ResetAll(st.book), [], FreshBar, st.history + [st.currentDay])
  }

  /** The incremental bar of `tickUpdate` always equals the bar of the whole day's ticks. */
  lemma TickUpdateTracksBar(st: Stock)
    requires StockOk(st)
    ensures StockOk(TickUpdate(st))
  {
    var p := st.book.currentPrice;
    var t := st.ticks + [p];
    if |st.ticks| == 1 {
      assert t[1..] == [p];
    } else if |st.ticks| > 1 {
      var rest := t[1..];
      assert rest[..|rest| - 1] == st.ticks[1..];
      assert SeqMax(rest) == MaxReal(SeqMax(st.ticks[1..]), p);
      assert SeqMin(rest) == MinReal(SeqMin(st.ticks[1..]), p);
    }
  }

  /** Orders placed through the stock's book keep it well formed. */
  lemma AddOrderKeepsStockOk(e: Engine, st: Stock, quantity: nat, direction: Direction, otype: OrderType, price: real)
    requires StockOk(st)
    ensures StockOk(st.(book := AddOrder(e, st.book, quantity, direction, otype, price).book))
  {
    AddOrderKeepsValid(e, st.book, quantity, direction, otype, price);
  }

  /** Once the day's high and low are set, they bound every tick but the first. */
  lemma BarBoundsLaterTicks(ticks: seq<real>)
    requires |ticks| > 1
    ensures forall i :: 1 <= i < |ticks| ==> BarOf(ticks).low <= ticks[i] <= BarOf(ticks).high
    ensures BarOf(ticks).open == ticks[0] && BarOf(ticks).close == ticks[|ticks| - 1]
  {
    forall i | 1 <= i < |ticks|
      ensures BarOf(ticks).low <= ticks[i] <= BarOf(ticks).high
    {
      assert ticks[1..][i - 1] == ticks[i];
    }
  }

  /**
   * The first tick is left out of the high and the low: a day that opens at
   * 30 and then trades at 20 reports an open above its high.
   */
  lemma OpenCanExceedHigh()
    ensures BarOf([30.0, 20.0]) == Bar(20.0, 20.0, 30.0, 20.0)
    ensures BarOf([30.0, 20.0]).open > BarOf([30.0, 20.0]).high
  {
    assert [30.0, 20.0][1..] == [20.0];
  }
}
