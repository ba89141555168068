/**
 * The momentum pool's price window (`MomentumTrader.__append`): three arrays of
 * 1080 slots holding past prices and running sums of price and price squared,
 * plus a fill count.  While filling, slot i holds the i-th price and exact
 * prefix sums; once full, every append shifts the arrays one slot left.
 */
module RollingWindow {
  import opened Numeric

  const Capacity: nat := 1080

  datatype Window = Window(prices: seq<real>, prefix: seq<real>, squares: seq<real>, len: nat)

  predicate Sized(w: Window)
  {
    |w.prices| == Capacity && |w.prefix| == Capacity && |w.squares| == Capacity && w.len <= Capacity
  }

  /** The zero-initialised arrays of the constructor. */
  function Empty(): (w: Window)
    ensures Sized(w) && w.len == 0
  {
    Window(seq(Capacity, _ => 0.0), seq(Capacity, _ => 0.0), seq(Capacity, _ => 0.0), 0)
  }

  /** Every element of `s` minus `c` (numpy's `array -= c`). */
  function Lower(s: seq<real>, c: real): (r: seq<real>)
    ensures |r| == |s|
    ensures forall i :: 0 <= i < |s| ==> r[i] == s[i] - c
  {
    seq(|s|, i requires 0 <= i < |s| => s[i] - c)
  }

  /**
   * `__append`, all three branches.  The full-buffer branch shifts each array
   * left, extends the last slot from its left neighbour, subtracts the evicted
   * price sum from the price sums, and then subtracts the evicted SQUARE sum
   * from the price sums again, leaving the square sums un-rebased.
   */
  function Append(w: Window, p: real): (w': Window)
    requires Sized(w)
    ensures Sized(w')
    ensures w'.len == Min(w.len + 1, Capacity)
    ensures w.len < Capacity ==> w'.prices == w.prices[w.len := p]
    ensures w.len == Capacity ==> w'.prices == w.prices[1..] + [p]
  {
    if w.len == 0 then
      Window(w.prices[0 := p], w.prefix[0 := p], w.squares[0 := p * p], 1)
    else if w.len < Capacity then
      Window(w.prices[w.len := p],
             w.prefix[w.len := w.prefix[w.len - 1] + p],
             w.squares[w.len := w.squares[w.len - 1] + p * p],
             w.len + 1)
    else
      var prices := w.prices[1..] + [p];
      var prefix := Lower(w.prefix[1..] + [w.prefix[Capacity - 1] + p], w.prefix[0]);
      var squares := w.squares[1..] + [w.squares[Capacity - 1] + p * p];
      Window(prices, Lower(prefix, w.squares[0]), squares, w.len)
  }

  /** Each running sum is its left neighbour plus its own slot's contribution. */
  predicate Adjacent(vals: seq<real>, sums: seq<real>, n: nat, squared: bool)
    requires n <= |vals| && n <= |sums|
  {
    forall i :: 0 < i < n ==> Linked(vals, sums, i, squared)
  }

  /** Slot `i` of the running sums extends slot `i - 1` by slot `i` of the values. */
  predicate Linked(vals: seq<real>, sums: seq<real>, i: nat, squared: bool)
    requires 0 < i < |vals| && i < |sums|
  {
    sums[i] == sums[i - 1] + (if squared then vals[i] * vals[i] else vals[i])
  }

  /**
   * The window invariant: both running-sum arrays are adjacent-consistent over
   * the filled slots; while filling they are exact prefix sums and every slot
   * past the fill count is still zero.
   */
  predicate Inv(w: Window)
  {
    && Sized(w)
    && Adjacent(w.prices, w.prefix, w.len, false)
    && Adjacent(w.prices, w.squares, w.len, true)
    && (0 < w.len < Capacity ==> w.prefix[0] == w.prices[0] && w.squares[0] == w.prices[0] * w.prices[0])
    && (w.len < Capacity ==>
          forall i :: w.len <= i < Capacity ==> w.prices[i] == 0.0 && w.prefix[i] == 0.0 && w.squares[i] == 0.0)
  }

  lemma {:induction false} AppendKeepsInv(w: Window, p: real)
    requires Inv(w)
    ensures Inv(Append(w, p))
  {
    if w.len == Capacity {
      AppendFullKeepsInv(w, p);
    } else {
      AppendFillingKeepsInv(w, p);
    }
  }

  lemma {:induction false} AppendFillingKeepsInv(w: Window, p: real)
    requires Inv(w) && w.len < Capacity
    ensures Inv(Append(w, p))
  {
    var w' := Append(w, p);
    var n := w.len;
    assert w'.len == n + 1;
    forall i | 0 < i < n + 1
      ensures Linked(w'.prices, w'.prefix, i, false) && Linked(w'.prices, w'.squares, i, true)
    {
      if i < n {
        assert Linked(w.prices, w.prefix, i, false) && Linked(w.prices, w.squares, i, true);
        assert w'.prefix[i] == w.prefix[i] && w'.prefix[i - 1] == w.prefix[i - 1];
        assert w'.squares[i] == w.squares[i] && w'.squares[i - 1] == w.squares[i - 1];
        assert w'.prices[i] == w.prices[i];
      }
    }
    if n + 1 < Capacity {
      forall i | n + 1 <= i < Capacity
        ensures w'.prices[i] == 0.0 && w'.prefix[i] == 0.0 && w'.squares[i] == 0.0
      {
        assert w'.prices[i] == w.prices[i];
        assert w'.prefix[i] == w.prefix[i];
        assert w'.squares[i] == w.squares[i];
      }
    }
  }

  lemma {:induction false} AppendFullKeepsInv(w: Window, p: real)
    requires Inv(w) && w.len == Capacity
    ensures Inv(Append(w, p))
  {
    var w' := Append(w, p);
    var shifted := w.prefix[1..] + [w.prefix[Capacity - 1] + p];
    var sq := w.squares[1..] + [w.squares[Capacity - 1] + p * p];
    assert w'.squares == sq;
    assert forall i :: 0 <= i < Capacity ==> w'.prefix[i] == shifted[i] - w.prefix[0] - w.squares[0];
    forall i | 0 < i < Capacity
      ensures Linked(w'.prices, w'.prefix, i, false) && Linked(w'.prices, w'.squares, i, true)
    {
      if i < Capacity - 1 {
        assert Linked(w.prices, w.prefix, i + 1, false) && Linked(w.prices, w.squares, i + 1, true);
        assert w'.prices[i] == w.prices[i + 1];
        assert shifted[i] == w.prefix[i + 1] && shifted[i - 1] == w.prefix[i];
        assert sq[i] == w.squares[i + 1] && sq[i - 1] == w.squares[i];
      } else {
        assert w'.prices[i] == p;
        assert shifted[i - 1] == w.prefix[Capacity - 1];
        assert sq[i - 1] == w.squares[Capacity - 1];
      }
    }
  }

  /** The window after appending every price of `h`, in order, to the empty window. */
  function Build(h: seq<real>): (w: Window)
    ensures Sized(w)
  {
    if |h| == 0 then Empty() else Append(Build(h[..|h| - 1]), h[|h| - 1])
  }

  /**
   * `w` is the window of history `h`: invariant-consistent, counting
   * `min(|h|, 1080)` prices, and holding exactly the last that many prices of
   * `h`, oldest first; until the first eviction slot 0 holds exact sums.
   */
  predicate Tracks(w: Window, h: seq<real>)
  {
    && Inv(w)
    && w.len == Min(|h|, Capacity)
    && w.prices[..w.len] == h[|h| - w.len..]
    && (0 < |h| <= Capacity ==> w.prefix[0] == w.prices[0] && w.squares[0] == w.prices[0] * w.prices[0])
  }

  /** Appending a price to the window of `h` gives the window of `h + [p]`. */
  lemma AppendTracks(w: Window, h: seq<real>, p: real)
    requires Tracks(w, h)
    ensures Tracks(Append(w, p), h + [p])
  {
    AppendKeepsInv(w, p);
    AppendTracksPrices(w, h, p);
    AppendFirstSlot(w, h, p);
    assert |h + [p]| == |h| + 1;
  }

  /** Until the first eviction, slot 0 of the appended window holds exact sums. */
  lemma AppendFirstSlot(w: Window, h: seq<real>, p: real)
    requires Tracks(w, h)
    ensures |h| < Capacity ==>
              && Append(w, p).prefix[0] == Append(w, p).prices[0]
              && Append(w, p).squares[0] == Append(w, p).prices[0] * Append(w, p).prices[0]
  {
    if |h| < Capacity {
      FillingAppendKeepsFirstSlot(w, p);
    }
  }

  lemma AppendTracksPrices(w: Window, h: seq<real>, p: real)
    requires Tracks(w, h)
    ensures Append(w, p).len == Min(|h| + 1, Capacity)
    ensures Append(w, p).prices[..Append(w, p).len] == (h + [p])[|h| + 1 - Append(w, p).len..]
  {
    if w.len < Capacity {
      FillingAppendPrices(w, h, p);
    } else {
      FullAppendPrices(w, h, p);
    }
  }

  lemma FillingAppendPrices(w: Window, h: seq<real>, p: real)
    requires Sized(w) && w.len < Capacity && w.len == |h| && w.prices[..w.len] == h
    ensures Append(w, p).prices[..w.len + 1] == h + [p]
  {
    assert Append(w, p).prices == w.prices[w.len := p];
  }

  lemma FullAppendPrices(w: Window, h: seq<real>, p: real)
    requires Sized(w) && w.len == Capacity && |h| >= Capacity && w.prices == h[|h| - Capacity..]
    ensures Append(w, p).prices == (h + [p])[|h| + 1 - Capacity..]
  {
    assert (h + [p])[|h| + 1 - Capacity..] == h[|h| - Capacity..][1..] + [p];
  }

  /** Before the first eviction, an append leaves (or makes) slot 0 exact. */
  lemma FillingAppendKeepsFirstSlot(w: Window, p: real)
    requires Inv(w) && w.len < Capacity
    ensures Append(w, p).prefix[0] == Append(w, p).prices[0]
    ensures Append(w, p).squares[0] == Append(w, p).prices[0] * Append(w, p).prices[0]
  {
  }

  /** The built window tracks its history. */
  lemma {:induction false} BuildTracks(h: seq<real>)
    ensures Tracks(Build(h), h)
  {
    if |h| > 0 {
      var init := h[..|h| - 1];
      BuildTracks(init);
      AppendTracks(Build(init), init, h[|h| - 1]);
      assert init + [h[|h| - 1]] == h;
    }
  }

  /** Adjacent sums telescope: a difference of two sums is the sum of the slots between. */
  lemma {:induction false} Telescope(vals: seq<real>, sums: seq<real>, n: nat, lo: nat, hi: nat)
    requires n <= |vals| && n <= |sums|
    requires Adjacent(vals, sums, n, false)
    requires lo <= hi < n
    ensures sums[hi] - sums[lo] == Sum(vals[lo + 1..hi + 1])
    decreases hi - lo
  {
    if lo < hi {
      Telescope(vals, sums, n, lo, hi - 1);
      assert Linked(vals, sums, hi, false);
      assert vals[lo + 1..hi + 1][..hi - lo - 1] == vals[lo + 1..hi];
    } else {
      assert vals[lo + 1..hi + 1] == [];
    }
  }

  lemma {:induction false} TelescopeSquares(vals: seq<real>, sums: seq<real>, n: nat, lo: nat, hi: nat)
    requires n <= |vals| && n <= |sums|
    requires Adjacent(vals, sums, n, true)
    requires lo <= hi < n
    ensures sums[hi] - sums[lo] == SumSquares(vals[lo + 1..hi + 1])
    decreases hi - lo
  {
    if lo < hi {
      TelescopeSquares(vals, sums, n, lo, hi - 1);
      assert Linked(vals, sums, hi, true);
      assert vals[lo + 1..hi + 1][..hi - lo - 1] == vals[lo + 1..hi];
    } else {
      assert vals[lo + 1..hi + 1] == [];
    }
  }

  /** Exact prefix sums from adjacency plus an exact first slot. */
  lemma {:induction false} PrefixFromAdjacent(vals: seq<real>, sums: seq<real>, n: nat, i: nat)
    requires n <= |vals| && n <= |sums|
    requires i < n
    requires Adjacent(vals, sums, n, false) && sums[0] == vals[0]
    ensures sums[i] == Sum(vals[..i + 1])
  {
    Telescope(vals, sums, n, 0, i);
    assert vals[..i + 1] == [vals[0]] + vals[1..i + 1];
    SumAppend([vals[0]], vals[1..i + 1]);
    assert Sum([vals[0]]) == vals[0] by {
      assert [vals[0]][..0] == [];
    }
  }

  lemma {:induction false} SquarePrefixFromAdjacent(vals: seq<real>, sums: seq<real>, n: nat, i: nat)
    requires n <= |vals| && n <= |sums|
    requires i < n
    requires Adjacent(vals, sums, n, true) && sums[0] == vals[0] * vals[0]
    ensures sums[i] == SumSquares(vals[..i + 1])
  {
    TelescopeSquares(vals, sums, n, 0, i);
    assert vals[..i + 1] == [vals[0]] + vals[1..i + 1];
    SumAppend([vals[0]], vals[1..i + 1]);
    assert SumSquares([vals[0]]) == vals[0] * vals[0] by {
      assert [vals[0]][..0] == [];
    }
  }

  /**
   * While the buffer is filling (at most 1080 prices appended), slot i holds
   * the i-th appended price and the two running sums hold the exact sums of
   * the prices and of their squares up to and including slot i.
   */
  lemma {:induction false} FillingPrefixSums(w: Window, h: seq<real>)
    requires Tracks(w, h) && |h| <= Capacity
    ensures w.len == |h|
    ensures forall i :: 0 <= i < |h| ==> w.prices[i] == h[i]
    ensures forall i :: 0 <= i < |h| ==> w.prefix[i] == Sum(h[..i + 1])
    ensures forall i :: 0 <= i < |h| ==> w.squares[i] == SumSquares(h[..i + 1])
  {
    assert w.prices[..|h|] == h;
    forall i | 0 <= i < |h|
      ensures w.prefix[i] == Sum(h[..i + 1]) && w.squares[i] == SumSquares(h[..i + 1])
    {
      PrefixFromAdjacent(w.prices, w.prefix, |h|, i);
      SquarePrefixFromAdjacent(w.prices, w.squares, |h|, i);
      assert w.prices[..i + 1] == h[..i + 1];
    }
  }

  /** Which slot the statistics treat as holding the newest running sum. */
  datatype Reader =
    | LastSlot    // index [-1]: slot 1079, whatever the fill count
    | NewestSlot  // slot len - 1, the newest running sum in both phases

  /**
   * The running-sum difference the statistics use for the trailing `k`
   * prices: `sums[-1] - sums[-1 - k]`, with `-1` read as `reader` says.
   */
  function Trailing(sums: seq<real>, w: Window, reader: Reader, k: nat): real
    requires Sized(w) && |sums| == Capacity
    requires 1 <= k <= w.len && k < Capacity
  {
    match reader
    case LastSlot => sums[Capacity - 1] - sums[Capacity - 1 - k]
    case NewestSlot => sums[w.len - 1] - (if w.len - 1 - k >= 0 then sums[w.len - 1 - k] else 0.0)
  }

  function WindowSum(w: Window, reader: Reader, k: nat): real
    requires Sized(w) && 1 <= k <= w.len && k < Capacity
  {
    Trailing(w.prefix, w, reader, k)
  }

  function WindowSquareSum(w: Window, reader: Reader, k: nat): real
    requires Sized(w) && 1 <= k <= w.len && k < Capacity
  {
    Trailing(w.squares, w, reader, k)
  }

  /**
   * Read at the newest slot, the window of `h` yields the sum and the sum of
   * squares of the last `k` prices of `h`, in the filling phase and in the
   * full phase alike.
   */
  lemma {:induction false} NewestSlotIsTrailingSum(w: Window, h: seq<real>, k: nat)
    requires Tracks(w, h)
    requires 1 <= k <= w.len && k < Capacity
    ensures WindowSum(w, NewestSlot, k) == Sum(h[|h| - k..])
    ensures WindowSquareSum(w, NewestSlot, k) == SumSquares(h[|h| - k..])
  {
    TrailingSlotsAreHistory(w, h, k);
    NewestSlotDifferences(w, k);
  }

  /** The last `k` filled slots are the last `k` prices of the history. */
  lemma TrailingSlotsAreHistory(w: Window, h: seq<real>, k: nat)
    requires Sized(w) && w.len <= |h| && k <= w.len
    requires w.prices[..w.len] == h[|h| - w.len..]
    ensures w.prices[w.len - k..w.len] == h[|h| - k..]
  {
    assert w.prices[w.len - k..w.len] == w.prices[..w.len][w.len - k..];
  }

  /** Read at the newest slot, the differences are sums of the last `k` filled slots. */
  lemma {:induction false} NewestSlotDifferences(w: Window, k: nat)
    requires Inv(w) && 1 <= k <= w.len && k < Capacity
    ensures WindowSum(w, NewestSlot, k) == Sum(w.prices[w.len - k..w.len])
    ensures WindowSquareSum(w, NewestSlot, k) == SumSquares(w.prices[w.len - k..w.len])
  {
    var n := w.len;
    if n - 1 - k >= 0 {
      Telescope(w.prices, w.prefix, n, n - 1 - k, n - 1);
      TelescopeSquares(w.prices, w.squares, n, n - 1 - k, n - 1);
    } else {
      PrefixFromAdjacent(w.prices, w.prefix, n, n - 1);
      SquarePrefixFromAdjacent(w.prices, w.squares, n, n - 1);
      assert w.prices[..n] == w.prices[n - k..n];
    }
  }

  /**
   * Once the buffer is full the last slot is the newest one, so the source's
   * reads are the true trailing sums even though the full-buffer branch
   * subtracts the wrong evictee: that error shifts every slot of an array by
   * one constant and cancels in every difference.
   */
  lemma {:induction false} LastSlotIsTrailingSumWhenFull(w: Window, h: seq<real>, k: nat)
    requires Tracks(w, h) && |h| >= Capacity && 1 <= k < Capacity
    ensures w.len == Capacity
    ensures WindowSum(w, LastSlot, k) == Sum(h[|h| - k..])
    ensures WindowSquareSum(w, LastSlot, k) == SumSquares(h[|h| - k..])
  {
    NewestSlotIsTrailingSum(w, h, k);
  }

  /**
   * While the buffer is filling, the last slot and every slot at or past the
   * fill count are still zero, so a trailing window that does not reach back
   * into the filled slots reads as zero.
   */
  lemma LastSlotReadsZeroWhileFilling(w: Window, h: seq<real>, k: nat)
    requires Tracks(w, h) && 1 <= k <= |h| && |h| + k < Capacity
    ensures w.len == |h|
    ensures WindowSum(w, LastSlot, k) == 0.0
    ensures WindowSquareSum(w, LastSlot, k) == 0.0
  {
  }

  /**
   * In the last `k` appends before the buffer fills, a trailing window of `k`
   * reaches back into the filled slots while the last slot is still zero, so
   * the difference reads as minus the sum of the first `1080 - k` prices.
   */
  lemma LastSlotReadsNegatedPrefixLateInFilling(w: Window, h: seq<real>, k: nat)
    requires Tracks(w, h) && 1 <= k <= |h| && |h| < Capacity <= |h| + k
    ensures w.len == |h|
    ensures WindowSum(w, LastSlot, k) == -Sum(h[..Capacity - k])
  {
    FillingPrefixSums(w, h);
    assert w.prefix[Capacity - 1 - k] == Sum(h[..Capacity - k]);
  }
}
