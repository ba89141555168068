/**
 * What the order book keeps true: sorted, live, consistently numbered sides
 * whose running totals are their unfilled volume; no crossed book under the
 * `Stock.cpp` engine; fills at the makers' prices, within the taker's limit,
 * with the fill price the quantity-weighted average.
 */
module BookInvariants {
  import opened Numeric
  import opened OrderBook

  /** A resting order on the side of direction `d`: a limit order of that direction, not yet full. */
  predicate Resting(d: Direction, o: Order)
  {
    o.direction == d && o.otype == Limit && o.filledQuantity < o.quantity
  }

  predicate SideOk(d: Direction, side: seq<Order>)
  {
    Sorted(d, side) && Distinct(side) && Live(side) && forall i :: 0 <= i < |side| ==> Resting(d, side[i])
  }

  /** Archived entries are filed under their own id and never over-filled. */
  predicate ArchiveOk(a: map<nat, Order>)
  {
    forall k :: k in a ==> a[k].id == k && a[k].filledQuantity <= a[k].quantity
  }

  /** Every id the book knows of: the C++ `orders` map's keys. */
  function Used(b: Book): set<nat>
  {
    IdsOf(b.bids) + IdsOf(b.asks) + b.archive.Keys
  }

  /** The book invariant. */
  predicate Valid(b: Book)
  {
    && SideOk(Buy, b.bids) && SideOk(Sell, b.asks)
    && b.totalBuy == SideVolume(b.bids) && b.totalSell == SideVolume(b.asks)
    && IdsOf(b.bids) !! IdsOf(b.asks)
    && b.archive.Keys !! IdsOf(b.bids) && b.archive.Keys !! IdsOf(b.asks)
    && ArchiveOk(b.archive)
    && b.nextId >= 1
    && forall x :: x in Used(b) ==> 1 <= x < b.nextId
  }

  /** The best bid is strictly below the best ask. */
  predicate NotCrossed(b: Book)
  {
    |b.bids| > 0 && |b.asks| > 0 ==> b.bids[0].price < b.asks[0].price
  }

  // ------------------------------------------------------------ side facts

  lemma SideVolumeNonNegative(side: seq<Order>)
    requires Live(side)
    ensures SideVolume(side) >= 0
    decreases |side|
  {
    if |side| > 0 {
      SideVolumeNonNegative(side[1..]);
    }
  }

  /** The tail of a well-formed side is well-formed and lacks the head's id. */
  lemma TailOk(d: Direction, side: seq<Order>)
    requires SideOk(d, side) && |side| > 0
    ensures SideOk(d, side[1..])
    ensures IdsOf(side) == {side[0].id} + IdsOf(side[1..])
    ensures side[0].id !in IdsOf(side[1..])
    ensures |side| > 1 ==> (d == Sell ==> side[1].price >= side[0].price) && (d == Buy ==> side[1].price <= side[0].price)
  {
    assert side == [side[0]] + side[1..];
    IdsOfCons(side[0], side[1..]);
    forall x | x in IdsOf(side[1..])
      ensures x != side[0].id
    {
      var i :| 0 <= i < |side[1..]| && side[1..][i].id == x;
      assert side[1..][i] == side[i + 1];
    }
    if |side| > 1 {
      assert Before(d, side[0], side[1]);
    }
  }

  /** Replacing the head of a well-formed side by the same order at a different live fill level. */
  lemma RefillHeadOk(d: Direction, side: seq<Order>, m: Order)
    requires SideOk(d, side) && |side| > 0
    requires SameOrder(m, side[0]) && m.filledQuantity < m.quantity
    ensures SideOk(d, [m] + side[1..])
    ensures IdsOf([m] + side[1..]) == IdsOf(side)
  {
    var r := [m] + side[1..];
    TailOk(d, side);
    IdsOfCons(m, side[1..]);
    forall i, j | 0 <= i < j < |r|
      ensures Before(d, r[i], r[j]) && r[i].id != r[j].id
    {
      assert r[j] == side[j];
      if i > 0 {
        assert r[i] == side[i];
      } else {
        assert Before(d, side[0], side[j]);
      }
    }
    forall i | 0 <= i < |r|
      ensures Resting(d, r[i])
    {
      if i > 0 {
        assert r[i] == side[i];
      }
    }
  }

  lemma ConsDistinct(o: Order, side: seq<Order>)
    requires Distinct(side) && o.id !in IdsOf(side)
    ensures Distinct([o] + side)
  {
    var r := [o] + side;
    forall i, j | 0 <= i < j < |r|
      ensures r[i].id != r[j].id
    {
      assert r[j] == side[j - 1];
      if i > 0 {
        assert r[i] == side[i - 1];
      } else {
        assert side[j - 1].id in IdsOf(side);
      }
    }
  }

  /** Inserting a resting order with a new id keeps a side well-formed. */
  lemma {:induction false} InsertOk(d: Direction, side: seq<Order>, o: Order)
    requires SideOk(d, side) && Resting(d, o) && o.id !in IdsOf(side)
    ensures SideOk(d, Insert(d, side, o))
    decreases |side|
  {
    var r := Insert(d, side, o);
    InsertSorted(d, side, o);
    InsertVolumeAndIds(d, side, o);
    if |side| == 0 {
    } else if Before(d, o, side[0]) {
      ConsDistinct(o, side);
      forall i | 0 < i < |r|
        ensures Resting(d, r[i])
      {
        assert r[i] == side[i - 1];
      }
    } else {
      var rest := Insert(d, side[1..], o);
      TailOk(d, side);
      InsertOk(d, side[1..], o);
      InsertVolumeAndIds(d, side[1..], o);
      ConsDistinct(side[0], rest);
      forall i | 0 < i < |r|
        ensures Resting(d, r[i])
      {
        assert r[i] == rest[i - 1];
      }
    }
  }

  // --------------------------------------------------------- the matching loop

  /** The invariant of the matching loop over an opposite side of direction `d`. */
  predicate SweepOk(s: Sweep, d: Direction)
  {
    && SideOk(d, s.opp) && s.oppVolume == SideVolume(s.opp) && ArchiveOk(s.archive)
    && s.archive.Keys !! IdsOf(s.opp)
    && s.taker.id !in IdsOf(s.opp) && s.taker.id !in s.archive
    && s.taker.filledQuantity <= s.taker.quantity
  }

  /** The best order on a side of direction `d` is no better than `p`. */
  predicate HeadNoBetter(d: Direction, side: seq<Order>, p: real)
  {
    |side| > 0 ==> (if d == Sell then side[0].price >= p else side[0].price <= p)
  }

  lemma {:induction false} StepKeeps(s: Sweep, d: Direction)
    requires SweepOk(s, d) && |s.opp| > 0 && s.taker.filledQuantity < s.taker.quantity
    ensures SweepOk(Step(s), d)
    ensures Step(s).archive.Keys + IdsOf(Step(s).opp) == s.archive.Keys + IdsOf(s.opp)
    ensures IdsOf(Step(s).opp) <= IdsOf(s.opp)
    ensures HeadNoBetter(d, Step(s).opp, s.opp[0].price)
    ensures Step(s).fills[|s.fills|].makerId in IdsOf(s.opp)
  {
    var best := s.opp[0];
    var f := Min(Remaining(best), Remaining(s.taker));
    var maker := Apply(best, f, best.price);
    var r := Step(s);
    TailOk(d, s.opp);
    assert best.id in IdsOf(s.opp);
    if maker.filledQuantity >= maker.quantity {
      assert r.opp == s.opp[1..];
      assert r.archive == s.archive[best.id := maker];
    } else {
      RefillHeadOk(d, s.opp, maker);
      assert r.opp == [maker] + s.opp[1..];
    }
  }

  lemma {:induction false} TakeKeeps(e: Engine, s: Sweep, d: Direction)
    requires SweepOk(s, d)
    ensures SweepOk(Take(e, s), d)
    ensures Take(e, s).archive.Keys + IdsOf(Take(e, s).opp) == s.archive.Keys + IdsOf(s.opp)
    ensures IdsOf(Take(e, s).opp) <= IdsOf(s.opp)
    ensures |s.opp| > 0 ==> HeadNoBetter(d, Take(e, s).opp, s.opp[0].price)
    ensures forall k :: |s.fills| <= k < |Take(e, s).fills| ==> Take(e, s).fills[k].makerId in IdsOf(s.opp)
    decreases s.taker.quantity - s.taker.filledQuantity
  {
    if |s.opp| == 0 || s.taker.filledQuantity == s.taker.quantity {
    } else if s.taker.otype == Limit && Stops(e, s.taker.direction, s.opp[0].price, s.taker.price) {
    } else {
      var s' := Step(s);
      StepKeeps(s, d);
      TakeKeeps(e, s', d);
      var r := Take(e, s');
      assert r == Take(e, s);
      if |r.opp| > 0 && |s'.opp| > 0 {
        assert HeadNoBetter(d, r.opp, s'.opp[0].price);
      }
      forall k | |s.fills| <= k < |r.fills|
        ensures r.fills[k].makerId in IdsOf(s.opp)
      {
        if k == |s.fills| {
          assert r.fills[k] == r.fills[..|s'.fills|][k];
        }
      }
    }
  }

  /** Total quantity of a list of fills. */
  function Volume(fills: seq<Fill>): int
  {
    if |fills| == 0 then 0 else Volume(fills[..|fills| - 1]) + fills[|fills| - 1].quantity
  }

  /** Total quantity times price of a list of fills. */
  function Notional(fills: seq<Fill>): real
  {
    if |fills| == 0 then 0.0 else Notional(fills[..|fills| - 1]) + fills[|fills| - 1].quantity as real * fills[|fills| - 1].price
  }

  /**
   * The taker's fill grows by the traded quantity, the opposite total falls
   * by it, and every trade is of at least one unit.
   */
  lemma TakeVolume(e: Engine, s: Sweep)
    requires Live(s.opp) && s.taker.filledQuantity <= s.taker.quantity
    ensures Take(e, s).taker.filledQuantity - s.taker.filledQuantity == Volume(Take(e, s).fills) - Volume(s.fills)
    ensures Take(e, s).oppVolume == s.oppVolume - (Volume(Take(e, s).fills) - Volume(s.fills))
    ensures forall k :: |s.fills| <= k < |Take(e, s).fills| ==> Take(e, s).fills[k].quantity >= 1
  {
    TakeTotals(e, s);
    TakeUnitFills(e, s);
  }

  lemma {:induction false} TakeTotals(e: Engine, s: Sweep)
    requires Live(s.opp) && s.taker.filledQuantity <= s.taker.quantity
    ensures Take(e, s).taker.filledQuantity - s.taker.filledQuantity == Volume(Take(e, s).fills) - Volume(s.fills)
    ensures Take(e, s).oppVolume == s.oppVolume - (Volume(Take(e, s).fills) - Volume(s.fills))
    decreases s.taker.quantity - s.taker.filledQuantity
  {
    if |s.opp| == 0 || s.taker.filledQuantity == s.taker.quantity {
    } else if s.taker.otype == Limit && Stops(e, s.taker.direction, s.opp[0].price, s.taker.price) {
    } else {
      TakeUnfolds(e, s);
      TakeTotals(e, Step(s));
      StepFill(s);
    }
  }

  lemma {:induction false} TakeUnitFills(e: Engine, s: Sweep)
    requires Live(s.opp) && s.taker.filledQuantity <= s.taker.quantity
    ensures forall k :: |s.fills| <= k < |Take(e, s).fills| ==> Take(e, s).fills[k].quantity >= 1
    decreases s.taker.quantity - s.taker.filledQuantity
  {
    if |s.opp| == 0 || s.taker.filledQuantity == s.taker.quantity {
    } else if s.taker.otype == Limit && Stops(e, s.taker.direction, s.opp[0].price, s.taker.price) {
    } else {
      var s' := Step(s);
      var r := Take(e, s');
      TakeUnfolds(e, s);
      TakeUnitFills(e, s');
      StepFill(s);
      forall k | |s.fills| <= k < |r.fills|
        ensures r.fills[k].quantity >= 1
      {
        if k == |s.fills| {
          assert r.fills[k] == r.fills[..|s'.fills|][k];
        }
      }
    }
  }

  /** A sweep that trades once more is the sweep from the state after that trade. */
  lemma TakeUnfolds(e: Engine, s: Sweep)
    requires Live(s.opp) && |s.opp| > 0 && s.taker.filledQuantity < s.taker.quantity
    requires !(s.taker.otype == Limit && Stops(e, s.taker.direction, s.opp[0].price, s.taker.price))
    ensures Take(e, s) == Take(e, Step(s))
  {
  }

  /** What one step records: a trade of the smaller remainder at the best order's price. */
  lemma StepFill(s: Sweep)
    requires |s.opp| > 0 && s.taker.filledQuantity < s.taker.quantity && Live(s.opp)
    ensures var f := Min(Remaining(s.opp[0]), Remaining(s.taker));
            && f >= 1
            && Step(s).fills == s.fills + [Fill(s.opp[0].id, f, s.opp[0].price)]
            && Step(s).taker.filledQuantity == s.taker.filledQuantity + f
            && Step(s).oppVolume == s.oppVolume - f
            && Step(s).price == s.opp[0].price
            && Volume(Step(s).fills) == Volume(s.fills) + f
  {
    var f := Min(Remaining(s.opp[0]), Remaining(s.taker));
    var fills := s.fills + [Fill(s.opp[0].id, f, s.opp[0].price)];
    assert fills[..|fills| - 1] == s.fills;
  }

  /** What an order has paid or received so far: its fill quantity times its average fill price. */
  function Paid(o: Order): real
  {
    o.filledPrice * o.filledQuantity as real
  }

  /** The taker's fill price stays the quantity-weighted average of its trades. */
  lemma {:induction false} TakeNotional(e: Engine, s: Sweep)
    requires Live(s.opp) && s.taker.filledQuantity <= s.taker.quantity
    ensures Paid(Take(e, s).taker) - Paid(s.taker) == Notional(Take(e, s).fills) - Notional(s.fills)
    decreases s.taker.quantity - s.taker.filledQuantity
  {
    if |s.opp| == 0 || s.taker.filledQuantity == s.taker.quantity {
    } else if s.taker.otype == Limit && Stops(e, s.taker.direction, s.opp[0].price, s.taker.price) {
    } else {
      var s' := Step(s);
      assert Take(e, s) == Take(e, s');
      TakeNotional(e, s');
      StepPaid(s);
    }
  }

  lemma StepPaid(s: Sweep)
    requires |s.opp| > 0 && s.taker.filledQuantity < s.taker.quantity && Live(s.opp)
    ensures Paid(Step(s).taker) - Paid(s.taker) == Notional(Step(s).fills) - Notional(s.fills)
  {
    var f := Min(Remaining(s.opp[0]), Remaining(s.taker));
    var p := s.opp[0].price;
    assert Step(s).fills == s.fills + [Fill(s.opp[0].id, f, p)];
    assert Step(s).taker == Apply(s.taker, f, p);
    NotionalAppend(s.fills, Fill(s.opp[0].id, f, p));
  }

  lemma NotionalAppend(fills: seq<Fill>, x: Fill)
    ensures Notional(fills + [x]) == Notional(fills) + x.quantity as real * x.price
  {
    assert (fills + [x])[..|fills|] == fills;
  }

  /**
   * The current price is the last trade's, and a limit taker only trades at
   * prices its stop test lets through.
   */
  lemma TakePrices(e: Engine, s: Sweep)
    requires Live(s.opp) && s.taker.filledQuantity <= s.taker.quantity
    ensures |Take(e, s).fills| == |s.fills| ==> Take(e, s).price == s.price
    ensures |Take(e, s).fills| > |s.fills| ==> Take(e, s).price == Take(e, s).fills[|Take(e, s).fills| - 1].price
    ensures s.taker.otype == Limit ==>
              forall k :: |s.fills| <= k < |Take(e, s).fills| ==>
                !Stops(e, s.taker.direction, Take(e, s).fills[k].price, s.taker.price)
  {
    TakeWithinLimit(e, s);
  }

  lemma {:induction false} TakeWithinLimit(e: Engine, s: Sweep)
    requires Live(s.opp) && s.taker.filledQuantity <= s.taker.quantity
    ensures s.taker.otype == Limit ==>
              forall k :: |s.fills| <= k < |Take(e, s).fills| ==>
                !Stops(e, s.taker.direction, Take(e, s).fills[k].price, s.taker.price)
    decreases s.taker.quantity - s.taker.filledQuantity
  {
    if |s.opp| == 0 || s.taker.filledQuantity == s.taker.quantity {
    } else if s.taker.otype == Limit && Stops(e, s.taker.direction, s.opp[0].price, s.taker.price) {
    } else {
      var s' := Step(s);
      var r := Take(e, s');
      assert Take(e, s) == r;
      TakeWithinLimit(e, s');
      StepFill(s);
      assert SameOrder(s'.taker, s.taker);
      assert r.fills[|s.fills|] == r.fills[..|s'.fills|][|s.fills|];
    }
  }

  // ------------------------------------------------------------------ addOrder

  function Opposite(d: Direction): Direction
  {
    if d == Buy then Sell else Buy
  }

  lemma StartOk(b: Book, quantity: nat, direction: Direction, otype: OrderType, price: real)
    requires Valid(b)
    ensures SweepOk(Start(b, quantity, direction, otype, price), Opposite(direction))
    ensures b.nextId !in Used(b)
  {
    assert b.nextId !in Used(b);
  }

  /** `AddOrder` is the sweep from `Start` followed by the resting step. */
  lemma AddOrderUnfolds(e: Engine, b: Book, quantity: nat, direction: Direction, otype: OrderType, price: real)
    requires Live(b.bids) && Live(b.asks)
    ensures var s := Take(e, Start(b, quantity, direction, otype, price));
            var r := AddOrder(e, b, quantity, direction, otype, price);
            var rests := otype == Limit && s.taker.filledQuantity < s.taker.quantity;
            && r.order == s.taker && r.fills == s.fills && r.book.currentPrice == s.price
            && r.book.archive == (if rests then s.archive else s.archive[s.taker.id := s.taker])
            && (direction == Buy ==>
                  && r.book.asks == s.opp && r.book.totalSell == s.oppVolume
                  && r.book.bids == (if rests then Insert(Buy, b.bids, s.taker) else b.bids)
                  && r.book.totalBuy == (if rests then b.totalBuy + Remaining(s.taker) else b.totalBuy))
            && (direction == Sell ==>
                  && r.book.bids == s.opp && r.book.totalBuy == s.oppVolume
                  && r.book.asks == (if rests then Insert(Sell, b.asks, s.taker) else b.asks)
                  && r.book.totalSell == (if rests then b.totalSell + Remaining(s.taker) else b.totalSell))
  {
  }

  /** `addOrder` keeps the book invariant, whichever engine matches. */
  lemma AddOrderKeepsValid(e: Engine, b: Book, quantity: nat, direction: Direction, otype: OrderType, price: real)
    requires Valid(b)
    ensures Valid(AddOrder(e, b, quantity, direction, otype, price).book)
  {
    var s0 := Start(b, quantity, direction, otype, price);
    StartOk(b, quantity, direction, otype, price);
    TakeKeeps(e, s0, Opposite(direction));
    PlaceOk(b, Take(e, s0));
  }

  /** Resting or filing the swept taker keeps the book invariant. */
  lemma PlaceOk(b: Book, s: Sweep)
    requires Valid(b) && SweepOk(s, Opposite(s.taker.direction)) && s.taker.id == b.nextId
    requires s.archive.Keys + IdsOf(s.opp) == b.archive.Keys + IdsOf(if s.taker.direction == Buy then b.asks else b.bids)
    ensures Valid(Place(b, s))
  {
    var t := s.taker;
    var r := Place(b, s);
    assert t.id !in Used(b);
    UsedBounds(b);
    FiledOk(s.archive, t);
    if t.direction == Buy {
      OwnSideOk(Buy, b.bids, b.totalBuy, t);
      IdBookkeeping(IdsOf(b.bids), IdsOf(b.asks), b.archive.Keys, IdsOf(r.bids), IdsOf(r.asks),
                    r.archive.Keys, s.archive.Keys, t.id, Rests(t), b.nextId);
    } else {
      OwnSideOk(Sell, b.asks, b.totalSell, t);
      IdBookkeeping(IdsOf(b.asks), IdsOf(b.bids), b.archive.Keys, IdsOf(r.asks), IdsOf(r.bids),
                    r.archive.Keys, s.archive.Keys, t.id, Rests(t), b.nextId);
    }
    ValidFromParts(r);
  }

  /** The new order's own side: unchanged, or with the resting remainder inserted. */
  lemma OwnSideOk(d: Direction, side: seq<Order>, total: int, t: Order)
    requires SideOk(d, side) && total == SideVolume(side) && t.id !in IdsOf(side) && t.direction == d
    ensures SideOk(d, Rested(d, side, t)) && RestedTotal(total, t) == SideVolume(Rested(d, side, t))
    ensures IdsOf(Rested(d, side, t)) == IdsOf(side) + (if Rests(t) then {t.id} else {})
  {
    if Rests(t) {
      InsertOk(d, side, t);
      InsertVolumeAndIds(d, side, t);
    }
  }

  /** The archive after the sweep stays well formed, with the taker's id added unless it rests. */
  lemma FiledOk(a: map<nat, Order>, t: Order)
    requires ArchiveOk(a) && t.filledQuantity <= t.quantity
    ensures ArchiveOk(Filed(a, t))
    ensures Filed(a, t).Keys == (if Rests(t) then a.Keys else a.Keys + {t.id})
  {
    if !Rests(t) {
      ArchivePut(a, t);
    }
  }

  /** Filing an order under its own id keeps the archive well formed and adds just that key. */
  lemma ArchivePut(a: map<nat, Order>, o: Order)
    requires ArchiveOk(a) && o.filledQuantity <= o.quantity
    ensures ArchiveOk(a[o.id := o]) && a[o.id := o].Keys == a.Keys + {o.id}
  {
  }

  /** `Valid` from its parts, with the id bound stated over the three id sets. */
  lemma ValidFromParts(b: Book)
    requires SideOk(Buy, b.bids) && SideOk(Sell, b.asks)
    requires b.totalBuy == SideVolume(b.bids) && b.totalSell == SideVolume(b.asks)
    requires IdsOf(b.bids) !! IdsOf(b.asks)
    requires b.archive.Keys !! IdsOf(b.bids) && b.archive.Keys !! IdsOf(b.asks)
    requires ArchiveOk(b.archive) && b.nextId >= 1
    requires forall x :: x in IdsOf(b.bids) ==> 1 <= x < b.nextId
    requires forall x :: x in IdsOf(b.asks) ==> 1 <= x < b.nextId
    requires forall x :: x in b.archive.Keys ==> 1 <= x < b.nextId
    ensures Valid(b)
  {
  }

  /** The id bound of a valid book, one id set at a time. */
  lemma UsedBounds(b: Book)
    requires Valid(b)
    ensures forall x :: x in IdsOf(b.bids) ==> 1 <= x < b.nextId
    ensures forall x :: x in IdsOf(b.asks) ==> 1 <= x < b.nextId
    ensures forall x :: x in b.archive.Keys ==> 1 <= x < b.nextId
  {
    forall x | x in IdsOf(b.bids)
      ensures 1 <= x < b.nextId
    {
      assert x in Used(b);
    }
    forall x | x in IdsOf(b.asks)
      ensures 1 <= x < b.nextId
    {
      assert x in Used(b);
    }
    forall x | x in b.archive.Keys
      ensures 1 <= x < b.nextId
    {
      assert x in Used(b);
    }
  }

  /**
   * The id sets after `addOrder`: the sweep only moves ids from the opposite
   * side to the archive, and the new id (the old `next_id`) goes to its own
   * side if the order rests and to the archive otherwise.
   */
  lemma IdBookkeeping(ownPrior: set<nat>, oppPrior: set<nat>, archPrior: set<nat>,
                      own: set<nat>, opp: set<nat>, arch: set<nat>, swept: set<nat>,
                      id: nat, rests: bool, nextId: nat)
    requires ownPrior !! oppPrior && archPrior !! ownPrior && archPrior !! oppPrior
    requires forall x :: x in ownPrior ==> 1 <= x < nextId
    requires forall x :: x in oppPrior ==> 1 <= x < nextId
    requires forall x :: x in archPrior ==> 1 <= x < nextId
    requires id == nextId && nextId >= 1
    requires swept + opp == archPrior + oppPrior && swept !! opp && id !in opp && id !in swept
    requires own == ownPrior + (if rests then {id} else {})
    requires arch == (if rests then swept else swept + {id})
    ensures own !! opp && arch !! own && arch !! opp
    ensures forall x :: x in own ==> 1 <= x < nextId + 1
    ensures forall x :: x in opp ==> 1 <= x < nextId + 1
    ensures forall x :: x in arch ==> 1 <= x < nextId + 1
  {
    forall x | x in swept
      ensures x in archPrior + oppPrior
    {
      assert x in swept + opp;
    }
    forall x | x in opp
      ensures x in archPrior + oppPrior
    {
      assert x in swept + opp;
    }
  }

  /**
   * Under the `Stock.cpp` engine `addOrder` never crosses the book: a limit
   * buy rests only below the best ask and a limit sell only above the best
   * bid, and sweeping only worsens the opposite best price.
   */
  lemma StockAddKeepsUncrossed(b: Book, quantity: nat, direction: Direction, otype: OrderType, price: real)
    requires Valid(b) && NotCrossed(b)
    ensures NotCrossed(AddOrder(StockEngine, b, quantity, direction, otype, price).book)
  {
    var s0 := Start(b, quantity, direction, otype, price);
    StartOk(b, quantity, direction, otype, price);
    TakeKeeps(StockEngine, s0, Opposite(direction));
    var s := Take(StockEngine, s0);
    assert |s0.opp| == 0 ==> s == s0;
    if direction == Buy {
      BuyPlaceUncrossed(b, s0, s);
    } else {
      SellPlaceUncrossed(b, s0, s);
    }
  }

  /** A swept buy rests below the remaining best ask, which is no better than the old one. */
  lemma BuyPlaceUncrossed(b: Book, s0: Sweep, s: Sweep)
    requires NotCrossed(b) && Live(b.bids) && Live(b.asks) && Live(s.opp)
    requires s.taker.direction == Buy && s0.opp == b.asks
    requires |s.opp| > 0 ==> |s0.opp| > 0 && HeadNoBetter(Sell, s.opp, s0.opp[0].price)
    requires Rests(s.taker) && |s.opp| > 0 ==> s.opp[0].price > s.taker.price
    ensures NotCrossed(Place(b, s))
  {
    if Rests(s.taker) {
      var ins := Insert(Buy, b.bids, s.taker);
      assert ins[0] == s.taker || (|b.bids| > 0 && ins[0] == b.bids[0]);
    }
  }

  /** A swept sell rests above the remaining best bid, which is no better than the old one. */
  lemma SellPlaceUncrossed(b: Book, s0: Sweep, s: Sweep)
    requires NotCrossed(b) && Live(b.bids) && Live(b.asks) && Live(s.opp)
    requires s.taker.direction == Sell && s0.opp == b.bids
    requires |s.opp| > 0 ==> |s0.opp| > 0 && HeadNoBetter(Buy, s.opp, s0.opp[0].price)
    requires Rests(s.taker) && |s.opp| > 0 ==> s.opp[0].price < s.taker.price
    ensures NotCrossed(Place(b, s))
  {
    if Rests(s.taker) {
      var ins := Insert(Sell, b.asks, s.taker);
      assert ins[0] == s.taker || (|b.asks| > 0 && ins[0] == b.asks[0]);
    }
  }

  /**
   * The fills of one `addOrder` add up to the new order's fill, whose price
   * is their quantity-weighted average, and come off the opposite side's
   * total.
   */
  lemma AddOrderFills(e: Engine, b: Book, quantity: nat, direction: Direction, otype: OrderType, price: real)
    requires Live(b.bids) && Live(b.asks)
    ensures var r := AddOrder(e, b, quantity, direction, otype, price);
            && Volume(r.fills) == r.order.filledQuantity
            && Paid(r.order) == Notional(r.fills)
            && (direction == Buy ==> r.book.totalSell == b.totalSell - Volume(r.fills))
            && (direction == Sell ==> r.book.totalBuy == b.totalBuy - Volume(r.fills))
  {
    var s0 := Start(b, quantity, direction, otype, price);
    TakeVolume(e, s0);
    TakeNotional(e, s0);
    AddOrderUnfolds(e, b, quantity, direction, otype, price);
  }

  /**
   * The current price after `addOrder` is its last trade's; a limit buy
   * never pays above its limit, and a limit sell never receives below it
   * under the `Stock.cpp` engine but never receives above it under the
   * legacy engine.
   */
  lemma AddOrderPrices(e: Engine, b: Book, quantity: nat, direction: Direction, otype: OrderType, price: real)
    requires Live(b.bids) && Live(b.asks)
    ensures var r := AddOrder(e, b, quantity, direction, otype, price);
            && (|r.fills| == 0 ==> r.book.currentPrice == b.currentPrice)
            && (|r.fills| > 0 ==> r.book.currentPrice == r.fills[|r.fills| - 1].price)
            && (otype == Limit && direction == Buy ==> forall k :: 0 <= k < |r.fills| ==> r.fills[k].price <= price)
            && (otype == Limit && direction == Sell && e == StockEngine ==>
                  forall k :: 0 <= k < |r.fills| ==> r.fills[k].price >= price)
            && (otype == Limit && direction == Sell && e == LegacyEngine ==>
                  forall k :: 0 <= k < |r.fills| ==> r.fills[k].price <= price)
  {
    AddOrderLastPrice(e, b, quantity, direction, otype, price);
    AddOrderWithinLimit(e, b, quantity, direction, otype, price);
  }

  lemma AddOrderLastPrice(e: Engine, b: Book, quantity: nat, direction: Direction, otype: OrderType, price: real)
    requires Live(b.bids) && Live(b.asks)
    ensures var r := AddOrder(e, b, quantity, direction, otype, price);
            && (|r.fills| == 0 ==> r.book.currentPrice == b.currentPrice)
            && (|r.fills| > 0 ==> r.book.currentPrice == r.fills[|r.fills| - 1].price)
  {
    AddOrderUnfolds(e, b, quantity, direction, otype, price);
  }

  lemma AddOrderWithinLimit(e: Engine, b: Book, quantity: nat, direction: Direction, otype: OrderType, price: real)
    requires Live(b.bids) && Live(b.asks)
    ensures var r := AddOrder(e, b, quantity, direction, otype, price);
            otype == Limit ==> forall k :: 0 <= k < |r.fills| ==> !Stops(e, direction, r.fills[k].price, price)
  {
    var s0 := Start(b, quantity, direction, otype, price);
    TakeWithinLimit(e, s0);
    AddOrderUnfolds(e, b, quantity, direction, otype, price);
  }

  /**
   * Where the new order ends up: a market order never rests and is kept for
   * `getOrder`, its remainder dropped only once the opposite side is empty;
   * a limit order rests exactly when it is not fully filled, and then the
   * opposite best price fails its stop test.
   */
  lemma AddOrderPlacement(e: Engine, b: Book, quantity: nat, direction: Direction, otype: OrderType, price: real)
    requires Valid(b)
    ensures var r := AddOrder(e, b, quantity, direction, otype, price);
            var own := if direction == Buy then r.book.bids else r.book.asks;
            var opp := if direction == Buy then r.book.asks else r.book.bids;
            && r.id !in Used(b)
            && (r.id in IdsOf(own) <==> otype == Limit && r.order.filledQuantity < quantity)
            && r.id !in IdsOf(opp)
            && (r.id !in IdsOf(own) ==> r.id in r.book.archive && r.book.archive[r.id] == r.order)
            && (otype == Market && r.order.filledQuantity < quantity ==> |opp| == 0)
            && (otype == Limit && r.order.filledQuantity < quantity ==>
                  |opp| == 0 || Stops(e, direction, opp[0].price, price))
  {
    var s0 := Start(b, quantity, direction, otype, price);
    StartOk(b, quantity, direction, otype, price);
    TakeKeeps(e, s0, Opposite(direction));
    AddOrderUnfolds(e, b, quantity, direction, otype, price);
    var s := Take(e, s0);
    var own := if direction == Buy then b.bids else b.asks;
    InsertVolumeAndIds(direction, own, s.taker);
  }

  /** The default order type is a market order at price 0.0, which never rests. */
  lemma DefaultOrderIsMarket(e: Engine, b: Book, quantity: nat, direction: Direction)
    requires Valid(b)
    ensures AddOrder(e, b, quantity, direction).order.otype == Market
    ensures var r := AddOrder(e, b, quantity, direction);
            r.id !in IdsOf(r.book.bids) && r.id !in IdsOf(r.book.asks)
  {
    AddOrderPlacement(e, b, quantity, direction, Market, 0.0);
  }

  // ------------------------------------------------------- cancel, get, reset

  lemma RemoveAtOk(d: Direction, side: seq<Order>, i: nat)
    requires SideOk(d, side) && i < |side|
    ensures SideOk(d, RemoveAt(side, i))
    ensures SideVolume(RemoveAt(side, i)) == SideVolume(side) - Remaining(side[i])
    ensures IdsOf(RemoveAt(side, i)) == IdsOf(side) - {side[i].id}
  {
    RemoveAtSideOk(d, side, i);
    RemoveAtVolume(side, i);
    RemoveAtIds(side, i);
  }

  /** Dropping one order keeps the others in their order, so a side stays well formed. */
  lemma RemoveAtSideOk(d: Direction, side: seq<Order>, i: nat)
    requires SideOk(d, side) && i < |side|
    ensures SideOk(d, RemoveAt(side, i))
  {
    var r := RemoveAt(side, i);
    forall j, k | 0 <= j < k < |r|
      ensures Before(d, r[j], r[k]) && r[j].id != r[k].id
    {
      var j' := if j < i then j else j + 1;
      var k' := if k < i then k else k + 1;
      assert r[j] == side[j'] && r[k] == side[k'];
    }
    forall j | 0 <= j < |r|
      ensures Resting(d, r[j])
    {
      assert r[j] == side[if j < i then j else j + 1];
    }
  }

  lemma {:induction false} RemoveAtVolume(side: seq<Order>, i: nat)
    requires i < |side|
    ensures SideVolume(RemoveAt(side, i)) == SideVolume(side) - Remaining(side[i])
    decreases i
  {
    var r := RemoveAt(side, i);
    if i == 0 {
      assert r == side[1..];
    } else {
      RemoveAtVolume(side[1..], i - 1);
      assert r[1..] == RemoveAt(side[1..], i - 1);
    }
  }

  lemma RemoveAtIds(side: seq<Order>, i: nat)
    requires Distinct(side) && i < |side|
    ensures IdsOf(RemoveAt(side, i)) == IdsOf(side) - {side[i].id}
  {
    var r := RemoveAt(side, i);
    forall x | x in IdsOf(r)
      ensures x in IdsOf(side) - {side[i].id}
    {
      var j :| 0 <= j < |r| && r[j].id == x;
      assert r[j] == side[if j < i then j else j + 1];
    }
    forall x | x in IdsOf(side) - {side[i].id}
      ensures x in IdsOf(r)
    {
      var j :| 0 <= j < |side| && side[j].id == x;
      assert j != i;
      assert r[if j < i then j else j - 1] == side[j];
    }
  }

  /**
   * `cancelOrder` keeps the invariant; cancelling a resting order removes it
   * from the book altogether and takes exactly its remainder off its side's
   * total, and an id that does not rest is a no-op.
   */
  lemma CancelOrderKeepsValid(b: Book, id: nat)
    requires Valid(b)
    ensures Valid(CancelOrder(b, id))
    ensures id !in IdsOf(b.bids) && id !in IdsOf(b.asks) ==> CancelOrder(b, id) == b
    ensures id in IdsOf(b.bids) || id in IdsOf(b.asks) ==> Used(CancelOrder(b, id)) == Used(b) - {id}
    ensures id in IdsOf(b.bids) ==>
              CancelOrder(b, id).totalBuy == b.totalBuy - Remaining(b.bids[Find(b.bids, id)])
    ensures id in IdsOf(b.asks) ==>
              CancelOrder(b, id).totalSell == b.totalSell - Remaining(b.asks[Find(b.asks, id)])
  {
    var i := Find(b.bids, id);
    var j := Find(b.asks, id);
    if i >= 0 {
      RemoveBidOk(b, i);
    } else if j >= 0 {
      RemoveAskOk(b, j);
    }
  }

  /** Taking the bid at index `i` off a valid book, with its remainder off the buy total. */
  lemma RemoveBidOk(b: Book, i: nat)
    requires Valid(b) && i < |b.bids|
    ensures var r := b.(bids := RemoveAt(b.bids, i), totalBuy := b.totalBuy - Remaining(b.bids[i]));
            Valid(r) && Used(r) == Used(b) - {b.bids[i].id}
  {
    var r := b.(bids := RemoveAt(b.bids, i), totalBuy := b.totalBuy - Remaining(b.bids[i]));
    RemoveAtOk(Buy, b.bids, i);
    assert b.bids[i].id in IdsOf(b.bids);
    UsedBounds(b);
    ValidFromParts(r);
  }

  /** Taking the ask at index `j` off a valid book, with its remainder off the sell total. */
  lemma RemoveAskOk(b: Book, j: nat)
    requires Valid(b) && j < |b.asks|
    ensures var r := b.(asks := RemoveAt(b.asks, j), totalSell := b.totalSell - Remaining(b.asks[j]));
            Valid(r) && Used(r) == Used(b) - {b.asks[j].id}
  {
    var r := b.(asks := RemoveAt(b.asks, j), totalSell := b.totalSell - Remaining(b.asks[j]));
    RemoveAtOk(Sell, b.asks, j);
    assert b.asks[j].id in IdsOf(b.asks);
    UsedBounds(b);
    ValidFromParts(r);
  }

  /** After a cancellation the id is unknown: `getOrder` answers None. */
  lemma CancelThenGetIsNone(b: Book, id: nat)
    requires Valid(b) && (id in IdsOf(b.bids) || id in IdsOf(b.asks))
    ensures GetOrder(CancelOrder(b, id), id).0.status == None
  {
    CancelOrderKeepsValid(b, id);
  }

  /**
   * `getOrder` keeps the invariant; a report that forgets the order (a full
   * fill, or a part-filled market order) is final, since the id is then
   * unknown, and any other report can be repeated.
   */
  lemma GetOrderKeepsValid(b: Book, id: nat)
    requires Valid(b)
    ensures Valid(GetOrder(b, id).1)
    ensures var r := GetOrder(b, id);
            r.1 != b ==> GetOrder(r.1, id).0.status == None
    ensures var r := GetOrder(b, id);
            r.1 == b ==> GetOrder(r.1, id) == r
  {
    var r := GetOrder(b, id);
    assert Used(r.1) <= Used(b);
    if r.1 != b {
      assert r.1.archive == b.archive - {id};
      assert id in b.archive;
    }
  }

  lemma ResetAllIsValid(b: Book)
    ensures Valid(ResetAll(b)) && NotCrossed(ResetAll(b))
    ensures ResetAll(b).currentPrice == b.currentPrice
  {
  }

  lemma InitIsValid(startPrice: real)
    ensures Valid(Init(startPrice)) && NotCrossed(Init(startPrice))
  {
  }

  /** On a valid book `getBuyPrice`/`getSellPrice` report the highest bid and the lowest ask. */
  lemma BestPricesAreExtreme(b: Book)
    requires Valid(b)
    ensures forall i :: 0 <= i < |b.bids| ==> b.bids[i].price <= BestBid(b)
    ensures forall i :: 0 <= i < |b.asks| ==> b.asks[i].price >= BestAsk(b)
  {
    forall i | 0 < i < |b.bids|
      ensures b.bids[i].price <= BestBid(b)
    {
      assert Before(Buy, b.bids[0], b.bids[i]);
    }
    forall i | 0 < i < |b.asks|
      ensures b.asks[i].price >= BestAsk(b)
    {
      assert Before(Sell, b.asks[0], b.asks[i]);
    }
  }

  // --------------------------------------------------- the legacy limit sell

  function BidAt(id: nat, quantity: nat, price: real): Order
  {
    Order(id, quantity, Buy, Limit, price, 0, 0.0)
  }

  /** A book holding one bid of 5 at `price` (id 1), no asks, next id 2. */
  function OneBid(price: real): Book
  {
    Book([BidAt(1, 5, price)], [], map[], 5, 0, 2, 100.0)
  }

  lemma OneBidValid(price: real)
    ensures Valid(OneBid(price)) && NotCrossed(OneBid(price))
  {
    assert IdsOf(OneBid(price).bids) == {1} by {
      IdsOfCons(BidAt(1, 5, price), []);
    }
  }

  /**
   * Under the legacy engine a limit sell at 12 against a resting bid at 15
   * stops at once and rests, leaving the ask at 12 under the bid at 15.
   */
  lemma LegacySellCrossesBook()
    ensures var r := AddOrder(LegacyEngine, OneBid(15.0), 5, Sell, Limit, 12.0);
            && r.fills == []
            && r.book.bids[0].price == 15.0 && r.book.asks[0].price == 12.0
            && !NotCrossed(r.book)
  {
    var b := OneBid(15.0);
    var s0 := Start(b, 5, Sell, Limit, 12.0);
    assert Take(LegacyEngine, s0) == s0;
    AddOrderUnfolds(LegacyEngine, b, 5, Sell, Limit, 12.0);
    assert Insert(Sell, [], s0.taker) == [s0.taker];
  }

  /** The `Stock.cpp` engine sells the same order to the bid at 15, emptying both sides. */
  lemma StockSellTakesBid()
    ensures var r := AddOrder(StockEngine, OneBid(15.0), 5, Sell, Limit, 12.0);
            && r.fills == [Fill(1, 5, 15.0)]
            && r.book.bids == [] && r.book.asks == []
  {
    var b := OneBid(15.0);
    var s0 := Start(b, 5, Sell, Limit, 12.0);
    var s1 := Step(s0);
    assert s1.opp == [] && s1.fills == [Fill(1, 5, 15.0)];
    assert Take(StockEngine, s0) == Take(StockEngine, s1) == s1;
    AddOrderUnfolds(StockEngine, b, 5, Sell, Limit, 12.0);
  }

  /**
   * Under the legacy engine a limit sell at 12 against a resting bid at 10
   * sells at 10, below its own limit.
   */
  lemma LegacySellFillsBelowLimit()
    ensures AddOrder(LegacyEngine, OneBid(10.0), 5, Sell, Limit, 12.0).fills == [Fill(1, 5, 10.0)]
  {
    var b := OneBid(10.0);
    var s0 := Start(b, 5, Sell, Limit, 12.0);
    var s1 := Step(s0);
    assert s1.opp == [] && s1.fills == [Fill(1, 5, 10.0)];
    assert Take(LegacyEngine, s0) == Take(LegacyEngine, s1) == s1;
    AddOrderUnfolds(LegacyEngine, b, 5, Sell, Limit, 12.0);
  }

  /** The `Stock.cpp` engine rests the same order at 12 without trading. */
  lemma StockSellRestsAboveBid()
    ensures var r := AddOrder(StockEngine, OneBid(10.0), 5, Sell, Limit, 12.0);
            && r.fills == [] && r.book.asks[0].price == 12.0 && NotCrossed(r.book)
  {
    var b := OneBid(10.0);
    var s0 := Start(b, 5, Sell, Limit, 12.0);
    assert Take(StockEngine, s0) == s0;
    AddOrderUnfolds(StockEngine, b, 5, Sell, Limit, 12.0);
    assert Insert(Sell, [], s0.taker) == [s0.taker];
  }
}
