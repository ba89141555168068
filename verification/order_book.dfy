/**
 * The price-time-priority limit order book of `Stock.cpp` / `OrderBook.cpp`.
 *
 * The C++ keeps every order in a hash map and points at the resting ones from
 * two ordered multisets.  Here the resting orders live, with their current
 * fill, in two sorted sequences (`bids` best first by `BuyBefore`, `asks`
 * best first by `SellBefore`), and `archive` holds the orders still in the
 * hash map that do not rest: filled makers, swept takers and zero-quantity
 * orders, until `getOrder` reports them.
 *
 * The two source files are one engine that differs in a single test, the
 * one that stops a limit sell from matching; `Engine` selects it.
 */
module OrderBook {
  import opened Numeric

  datatype Direction = Buy | Sell
  datatype OrderType = Limit | Market
  datatype OrderStatus = Pending | PartlyFilled | FullyFilled | Canceled | None

  datatype Order = Order(id: nat, quantity: nat, direction: Direction, otype: OrderType, price: real,
                         filledQuantity: nat, filledPrice: real)

  datatype OrderResult = OrderResult(status: OrderStatus, filledQuantity: nat, filledPrice: real)

  /** One trade: the resting (maker) order's id, the quantity and the maker's price. */
  datatype Fill = Fill(makerId: nat, quantity: nat, price: real)

  /**
   * `StockEngine` stops a limit sell when the best bid is below its limit
   * (`Stock.cpp`); `LegacyEngine` stops it when the best bid is above its
   * limit (`OrderBook.cpp`).  Both stop a limit buy when the best ask is
   * above its limit.
   */
  datatype Engine = StockEngine | LegacyEngine

  datatype Book = Book(bids: seq<Order>, asks: seq<Order>, archive: map<nat, Order>,
                       totalBuy: int, totalSell: int, nextId: nat, currentPrice: real)

  function Remaining(o: Order): int
  {
    o.quantity - o.filledQuantity
  }

  // ----------------------------------------------------------- comparators

  /** `BuyComparator`: higher price first, then lower id. */
  predicate BuyBefore(a: Order, b: Order)
  {
    a.price > b.price || (a.price == b.price && a.id < b.id)
  }

  /** `SellComparator`: lower price first, then lower id. */
  predicate SellBefore(a: Order, b: Order)
  {
    a.price < b.price || (a.price == b.price && a.id < b.id)
  }

  /** The priority order of the side that holds orders of direction `d`. */
  predicate Before(d: Direction, a: Order, b: Order)
  {
    if d == Buy then BuyBefore(a, b) else SellBefore(a, b)
  }

  /**
   * Both comparators are strict orders, and total on orders with distinct
   * ids, so each side has a unique best order.
   */
  lemma ComparatorsAreStrictTotal(d: Direction, a: Order, b: Order, c: Order)
    ensures !Before(d, a, a)
    ensures Before(d, a, b) ==> !Before(d, b, a)
    ensures Before(d, a, b) && Before(d, b, c) ==> Before(d, a, c)
    ensures a.id != b.id ==> Before(d, a, b) || Before(d, b, a)
  {
  }

  // ----------------------------------------------------------------- sides

  /** Strictly sorted by the side's priority. */
  predicate Sorted(d: Direction, side: seq<Order>)
  {
    forall i, j :: 0 <= i < j < |side| ==> Before(d, side[i], side[j])
  }

  predicate Distinct(side: seq<Order>)
  {
    forall i, j :: 0 <= i < j < |side| ==> side[i].id != side[j].id
  }

  function IdsOf(side: seq<Order>): set<nat>
  {
    set i | 0 <= i < |side| :: side[i].id
  }

  /** No resting order is already fully filled. */
  predicate Live(side: seq<Order>)
  {
    forall i :: 0 <= i < |side| ==> side[i].filledQuantity < side[i].quantity
  }

  lemma IdsOfCons(o: Order, side: seq<Order>)
    ensures IdsOf([o] + side) == {o.id} + IdsOf(side)
  {
    var s := [o] + side;
    forall x | x in IdsOf(s)
      ensures x in {o.id} + IdsOf(side)
    {
      var i :| 0 <= i < |s| && s[i].id == x;
      if i > 0 {
        assert side[i - 1].id == x;
      }
    }
    forall x | x in {o.id} + IdsOf(side)
      ensures x in IdsOf(s)
    {
      if x == o.id {
        assert s[0].id == x;
      } else {
        var i :| 0 <= i < |side| && side[i].id == x;
        assert s[i + 1].id == x;
      }
    }
  }

  /** Unfilled quantity resting on a side. */
  function SideVolume(side: seq<Order>): int
  {
    if |side| == 0 then 0 else Remaining(side[0]) + SideVolume(side[1..])
  }

  /** The multiset insertion: before the first order it has priority over. */
  function Insert(d: Direction, side: seq<Order>, o: Order): (r: seq<Order>)
    ensures |r| == |side| + 1
    ensures multiset(r) == multiset(side) + multiset{o}
    ensures r[0] == o || (|side| > 0 && r[0] == side[0])
  {
    if |side| == 0 then [o]
    else if Before(d, o, side[0]) then [o] + side
    else
      assert side == [side[0]] + side[1..];
      [side[0]] + Insert(d, side[1..], o)
  }

  /** Inserting adds the order's remainder to the side's volume and its id to the side's ids. */
  lemma InsertVolumeAndIds(d: Direction, side: seq<Order>, o: Order)
    ensures SideVolume(Insert(d, side, o)) == SideVolume(side) + Remaining(o)
    ensures IdsOf(Insert(d, side, o)) == IdsOf(side) + {o.id}
    ensures Live(side) && o.filledQuantity < o.quantity ==> Live(Insert(d, side, o))
  {
    InsertVolume(d, side, o);
    InsertIds(d, side, o);
    if Live(side) && o.filledQuantity < o.quantity {
      InsertLive(d, side, o);
    }
  }

  lemma {:induction false} InsertVolume(d: Direction, side: seq<Order>, o: Order)
    ensures SideVolume(Insert(d, side, o)) == SideVolume(side) + Remaining(o)
  {
    if |side| > 0 && !Before(d, o, side[0]) {
      var rest := Insert(d, side[1..], o);
      InsertVolume(d, side[1..], o);
      assert ([side[0]] + rest)[1..] == rest;
    } else if |side| > 0 {
      assert ([o] + side)[1..] == side;
    }
  }

  lemma InsertIds(d: Direction, side: seq<Order>, o: Order)
    ensures IdsOf(Insert(d, side, o)) == IdsOf(side) + {o.id}
  {
    InsertIdsWithin(d, side, o);
    InsertIdsCover(d, side, o);
  }

  lemma InsertIdsWithin(d: Direction, side: seq<Order>, o: Order)
    ensures IdsOf(Insert(d, side, o)) <= IdsOf(side) + {o.id}
  {
    var r := Insert(d, side, o);
    forall x | x in IdsOf(r)
      ensures x in IdsOf(side) + {o.id}
    {
      var i :| 0 <= i < |r| && r[i].id == x;
      assert r[i] in multiset(r);
      if r[i] != o {
        assert r[i] in side;
      }
    }
  }

  lemma InsertIdsCover(d: Direction, side: seq<Order>, o: Order)
    ensures IdsOf(side) + {o.id} <= IdsOf(Insert(d, side, o))
  {
    var r := Insert(d, side, o);
    assert o in multiset(r);
    assert r[IndexOf(r, o)].id == o.id;
    forall j | 0 <= j < |side|
      ensures side[j].id in IdsOf(r)
    {
      assert side[j] in multiset(side);
      assert side[j] in multiset(r);
      assert r[IndexOf(r, side[j])].id == side[j].id;
    }
  }

  /** The position of an element known to occur in a sequence. */
  function IndexOf(r: seq<Order>, x: Order): (i: nat)
    requires x in r
    ensures i < |r| && r[i] == x
  {
    if r[0] == x then 0 else 1 + IndexOf(r[1..], x)
  }

  lemma InsertLive(d: Direction, side: seq<Order>, o: Order)
    requires Live(side) && o.filledQuantity < o.quantity
    ensures Live(Insert(d, side, o))
  {
    var r := Insert(d, side, o);
    forall i | 0 <= i < |r|
      ensures r[i].filledQuantity < r[i].quantity
    {
      assert r[i] in multiset(r);
      if r[i] != o {
        assert r[i] in multiset(side);
      }
    }
  }

  /** Inserting an order with a new id into a sorted side keeps it sorted. */
  lemma {:induction false} InsertSorted(d: Direction, side: seq<Order>, o: Order)
    requires Sorted(d, side) && o.id !in IdsOf(side)
    ensures Sorted(d, Insert(d, side, o))
  {
    if |side| > 0 && !Before(d, o, side[0]) {
      assert side == [side[0]] + side[1..];
      IdsOfCons(side[0], side[1..]);
      InsertSorted(d, side[1..], o);
      HeadBeforeInserted(d, side, o);
      ConsSorted(d, side[0], Insert(d, side[1..], o));
    }
  }

  /** The head of a sorted side has priority over everything in its tail with `o` inserted, when it has over `o`. */
  lemma HeadBeforeInserted(d: Direction, side: seq<Order>, o: Order)
    requires Sorted(d, side) && |side| > 0 && o.id != side[0].id && !Before(d, o, side[0])
    ensures forall j :: 0 <= j < |Insert(d, side[1..], o)| ==> Before(d, side[0], Insert(d, side[1..], o)[j])
  {
    var rest := Insert(d, side[1..], o);
    forall j | 0 <= j < |rest|
      ensures Before(d, side[0], rest[j])
    {
      var x := rest[j];
      assert x in multiset(rest);
      if x != o {
        assert x in multiset(side[1..]);
        var k :| 0 <= k < |side[1..]| && side[1..][k] == x;
        assert side[k + 1] == x;
      }
    }
  }

  lemma ConsSorted(d: Direction, x: Order, rest: seq<Order>)
    requires Sorted(d, rest) && forall j :: 0 <= j < |rest| ==> Before(d, x, rest[j])
    ensures Sorted(d, [x] + rest)
  {
    var r := [x] + rest;
    forall i, j | 0 <= i < j < |r|
      ensures Before(d, r[i], r[j])
    {
      assert r[j] == rest[j - 1];
      if i > 0 {
        assert r[i] == rest[i - 1];
      }
    }
  }

  /** The index of the order with id `id` on a side, or -1. */
  function Find(side: seq<Order>, id: nat): (i: int)
    ensures -1 <= i < |side|
    ensures i >= 0 ==> side[i].id == id
    ensures i < 0 <==> id !in IdsOf(side)
  {
    if |side| == 0 then -1
    else if side[0].id == id then 0
    else
      var j := Find(side[1..], id);
      assert side == [side[0]] + side[1..];
      IdsOfCons(side[0], side[1..]);
      if j < 0 then -1 else j + 1
  }

  // --------------------------------------------------------------- matching

  /** The orders `a` and `b` are the same order, perhaps at different fill levels. */
  predicate SameOrder(a: Order, b: Order)
  {
    a.id == b.id && a.quantity == b.quantity && a.direction == b.direction && a.otype == b.otype && a.price == b.price
  }

  /** Add `f` units at `p` to an order's fill, keeping its fill price the quantity-weighted average. */
  function Apply(o: Order, f: nat, p: real): (r: Order)
    requires o.filledQuantity + f > 0
    ensures SameOrder(r, o) && r.filledQuantity == o.filledQuantity + f
    ensures r.filledPrice * r.filledQuantity as real == o.filledPrice * o.filledQuantity as real + f as real * p
  {
    var q := (o.filledQuantity + f) as real;
    var avg := (o.filledQuantity as real * o.filledPrice + f as real * p) / q;
    assert avg * q == o.filledQuantity as real * o.filledPrice + f as real * p;
    o.(filledPrice := avg, filledQuantity := o.filledQuantity + f)
  }

  /**
   * A matching loop in progress: the incoming (taker) order, the opposite
   * side, the archive, the opposite side's running total, the current price
   * and the fills so far.
   */
  datatype Sweep = Sweep(taker: Order, opp: seq<Order>, archive: map<nat, Order>, oppVolume: int,
                         price: real, fills: seq<Fill>)

  /**
   * Whether a limit order stops matching against a best opposite price and
   * rests instead.
   */
  predicate Stops(e: Engine, d: Direction, best: real, limit: real)
  {
    if d == Buy then best > limit
    else if e == StockEngine then best < limit
    else best > limit
  }

  /**
   * One iteration of the matching loop: trade the smaller of the two
   * remainders at the best order's price, update both fills and the current
   * price, take the traded amount off the opposite total, and move the best
   * order to the archive when it is full.
   */
  function Step(s: Sweep): (r: Sweep)
    requires |s.opp| > 0 && s.taker.filledQuantity < s.taker.quantity && Live(s.opp)
    ensures SameOrder(r.taker, s.taker) && s.taker.filledQuantity < r.taker.filledQuantity <= r.taker.quantity
    ensures Live(r.opp)
    ensures |r.fills| == |s.fills| + 1 && r.fills[..|s.fills|] == s.fills
  {
    var best := s.opp[0];
    var f := Min(Remaining(best), Remaining(s.taker));
    var maker := Apply(best, f, best.price);
    var taker := Apply(s.taker, f, best.price);
    var fills := s.fills + [Fill(best.id, f, best.price)];
    assert fills[..|s.fills|] == s.fills;
    if maker.filledQuantity >= maker.quantity then
      Sweep(taker, s.opp[1..], s.archive[maker.id := maker], s.oppVolume - f, best.price, fills)
    else
      Sweep(taker, [maker] + s.opp[1..], s.archive, s.oppVolume - f, best.price, fills)
  }

  /**
   * The matching loop: trade against the best opposite order until the
   * taker is full, the opposite side is empty, or (for a limit order) the
   * best opposite price fails the engine's stop test.
   */
  function Take(e: Engine, s: Sweep): (r: Sweep)
    requires Live(s.opp) && s.taker.filledQuantity <= s.taker.quantity
    ensures SameOrder(r.taker, s.taker) && s.taker.filledQuantity <= r.taker.filledQuantity <= r.taker.quantity
    ensures Live(r.opp)
    ensures |r.opp| == 0 || r.taker.filledQuantity == r.taker.quantity ||
            (r.taker.otype == Limit && Stops(e, r.taker.direction, r.opp[0].price, r.taker.price))
    ensures |s.fills| <= |r.fills| && r.fills[..|s.fills|] == s.fills
    ensures |r.fills| == |s.fills| ==> r.price == s.price
    ensures |r.fills| > |s.fills| ==> r.price == r.fills[|r.fills| - 1].price
    decreases s.taker.quantity - s.taker.filledQuantity
  {
    if |s.opp| == 0 || s.taker.filledQuantity == s.taker.quantity then s
    else if s.taker.otype == Limit && Stops(e, s.taker.direction, s.opp[0].price, s.taker.price) then s
    else
      var s' := Step(s);
      var r := Take(e, s');
      assert r.fills[..|s.fills|] == r.fills[..|s'.fills|][..|s.fills|];
      assert |r.fills| == |s'.fills| ==> r.fills == s'.fills;
      r
  }

  /** What `addOrder` leaves behind: the book, the new id, the new order as it ends, and its trades. */
  datatype Added = Added(book: Book, id: nat, order: Order, fills: seq<Fill>)

  /**
   * `addOrder` (with `matchOrders`): number the order, sweep the opposite
   * side, and rest a limit order's unfilled remainder on its own side; a
   * market order's remainder is dropped.  Type and price default to a market
   * order at 0.0.
   */
  function AddOrder(e: Engine, b: Book, quantity: nat, direction: Direction,
                    otype: OrderType := Market, price: real := 0.0): (r: Added)
    requires Live(b.bids) && Live(b.asks)
    ensures r.id == b.nextId && r.book.nextId == b.nextId + 1
    ensures SameOrder(r.order, Order(r.id, quantity, direction, otype, price, 0, 0.0))
    ensures r.order.filledQuantity <= quantity
    ensures Live(r.book.bids) && Live(r.book.asks)
  {
    var s := Take(e, Start(b, quantity, direction, otype, price));
    Added(Place(b, s), b.nextId, s.taker, s.fills)
  }

  /** The sweep `addOrder` starts with: the numbered order against the opposite side. */
  function Start(b: Book, quantity: nat, direction: Direction, otype: OrderType, price: real): Sweep
  {
    var o := Order(b.nextId, quantity, direction, otype, price, 0, 0.0);
    if direction == Buy then Sweep(o, b.asks, b.archive, b.totalSell, b.currentPrice, [])
    else Sweep(o, b.bids, b.archive, b.totalBuy, b.currentPrice, [])
  }

  /**
   * The book once the sweep is over: the opposite side, its total, the
   * archive and the price as the sweep left them; a limit taker's unfilled
   * remainder rests on its own side, and any other taker is filed in the
   * archive.
   */
  function Place(b: Book, s: Sweep): (r: Book)
    requires Live(b.bids) && Live(b.asks) && Live(s.opp)
    ensures r.nextId == b.nextId + 1
    ensures Live(r.bids) && Live(r.asks)
  {
    var t := s.taker;
    InsertVolumeAndIds(t.direction, if t.direction == Buy then b.bids else b.asks, t);
    if t.direction == Buy then
      Book(Rested(Buy, b.bids, t), s.opp, Filed(s.archive, t),
           RestedTotal(b.totalBuy, t), s.oppVolume, b.nextId + 1, s.price)
    else
      Book(s.opp, Rested(Sell, b.asks, t), Filed(s.archive, t),
           s.oppVolume, RestedTotal(b.totalSell, t), b.nextId + 1, s.price)
  }

  /** Whether a swept taker rests: a limit order with quantity left. */
  predicate Rests(t: Order)
  {
    t.otype == Limit && t.filledQuantity < t.quantity
  }

  /** The taker's own side after the sweep. */
  function Rested(d: Direction, side: seq<Order>, t: Order): seq<Order>
  {
    if Rests(t) then Insert(d, side, t) else side
  }

  /** The running total of the taker's own side after the sweep. */
  function RestedTotal(total: int, t: Order): int
  {
    if Rests(t) then total + Remaining(t) else total
  }

  /** The archive after the sweep: a taker that does not rest is filed under its id. */
  function Filed(archive: map<nat, Order>, t: Order): map<nat, Order>
  {
    if Rests(t) then archive else archive[t.id := t]
  }

  // ------------------------------------------------------------ the rest of the API

  /** The constructor: ids from 1, no volume, the given start price (100.0 by default). */
  function Init(startPrice: real := 100.0): (b: Book)
    ensures b.bids == [] && b.asks == [] && b.archive == map[]
    ensures b.totalBuy == 0 && b.totalSell == 0 && b.nextId == 1 && b.currentPrice == startPrice
  {
    Book([], [], map[], 0, 0, 1, startPrice)
  }

  /** `resetAll`: everything but the current price back to the constructor's state. */
  function ResetAll(b: Book): (r: Book)
    ensures r == Init(b.currentPrice)
  {
    b.(bids := [], asks := [], archive := map[], totalBuy := 0, totalSell := 0, nextId := 1)
  }

  /** A side with the order at index `i` taken out. */
  function RemoveAt(side: seq<Order>, i: nat): (r: seq<Order>)
    requires i < |side|
    ensures |r| == |side| - 1
    ensures forall j :: 0 <= j < i ==> r[j] == side[j]
    ensures forall j :: i <= j < |r| ==> r[j] == side[j + 1]
  {
    side[..i] + side[i + 1..]
  }

  /** The hash-map entry for an id: the resting copy if it rests, else the archived one. */
  datatype Lookup = Found(order: Order) | Missing

  function Entry(b: Book, id: nat): (r: Lookup)
    ensures r.Missing? <==> id !in IdsOf(b.bids) && id !in IdsOf(b.asks) && id !in b.archive
    ensures r.Found? ==> r.order.id == id || (id in b.archive && r.order == b.archive[id])
  {
    var i := Find(b.bids, id);
    var j := Find(b.asks, id);
    if i >= 0 then Found(b.bids[i])
    else if j >= 0 then Found(b.asks[j])
    else if id in b.archive then Found(b.archive[id])
    else Missing
  }

  /**
   * `cancelOrder`: an id that does not rest is ignored; a resting order is
   * taken off its side and its unfilled quantity off that side's total.
   */
  function CancelOrder(b: Book, id: nat): (r: Book)
    ensures id !in IdsOf(b.bids) && id !in IdsOf(b.asks) ==> r == b
    ensures id in IdsOf(b.bids) ==>
              && r.asks == b.asks && r.totalSell == b.totalSell
              && |r.bids| == |b.bids| - 1
              && r.totalBuy == b.totalBuy - Remaining(b.bids[Find(b.bids, id)])
    ensures id !in IdsOf(b.bids) && id in IdsOf(b.asks) ==>
              && r.bids == b.bids && r.totalBuy == b.totalBuy
              && |r.asks| == |b.asks| - 1
              && r.totalSell == b.totalSell - Remaining(b.asks[Find(b.asks, id)])
    ensures r.archive == b.archive && r.nextId == b.nextId && r.currentPrice == b.currentPrice
  {
    var i := Find(b.bids, id);
    var j := Find(b.asks, id);
    if i >= 0 then b.(bids := RemoveAt(b.bids, i), totalBuy := b.totalBuy - Remaining(b.bids[i]))
    else if j >= 0 then b.(asks := RemoveAt(b.asks, j), totalSell := b.totalSell - Remaining(b.asks[j]))
    else b
  }

  /** The orders a status query erases: fully filled ones, and part-filled market orders. */
  predicate Forgotten(o: Order)
  {
    0 < o.filledQuantity && (o.quantity <= o.filledQuantity || o.otype == Market)
  }

  /**
   * `getOrder`: None for an unknown id; Pending while nothing is filled;
   * partlyFilled with the fill so far (forgetting a market order, which will
   * never fill further); fullyFilled (forgetting the order).
   */
  function GetOrder(b: Book, id: nat): (r: (OrderResult, Book))
    ensures r.0.status != Canceled
    ensures r.0.status == None <==> Entry(b, id).Missing?
    ensures Entry(b, id).Found? ==>
              var o := Entry(b, id).order;
              && (r.0.status == Pending <==> o.filledQuantity == 0)
              && (r.0.status == PartlyFilled <==> 0 < o.filledQuantity < o.quantity)
              && (r.0.status == FullyFilled <==> 0 < o.filledQuantity && o.quantity <= o.filledQuantity)
              && (r.0.status != Pending ==> r.0.filledQuantity == o.filledQuantity && r.0.filledPrice == o.filledPrice)
    ensures r.0.status == Pending || r.0.status == None ==> r.0 == OrderResult(r.0.status, 0, 0.0)
    ensures Entry(b, id).Found? && Forgotten(Entry(b, id).order) ==> r.1 == b.(archive := b.archive - {id})
    ensures !(Entry(b, id).Found? && Forgotten(Entry(b, id).order)) ==> r.1 == b
  {
    match Entry(b, id)
    case Missing => (OrderResult(None, 0, 0.0), b)
    case Found(o) =>
      if o.filledQuantity == 0 then (OrderResult(Pending, 0, 0.0), b)
      else if o.filledQuantity < o.quantity then
        (OrderResult(PartlyFilled, o.filledQuantity, o.filledPrice),
         if o.otype == Market then b.(archive := b.archive - {id}) else b)
      else (OrderResult(FullyFilled, o.filledQuantity, o.filledPrice), b.(archive := b.archive - {id}))
  }

  /** `getBuyPrice`: the best bid's price, or 0.0 on an empty side. */
  function BestBid(b: Book): real
  {
    if |b.bids| == 0 then 0.0 else b.bids[0].price
  }

  /** `getSellPrice`: the best ask's price, or 0.0 on an empty side. */
  function BestAsk(b: Book): real
  {
    if |b.asks| == 0 then 0.0 else b.asks[0].price
  }
}
