/** How long converted data stays valid: 32-bit microsecond arithmetic that wraps. */
module Validity {
  import opened Bits

  function Wrap(x: int): (r: nat)
    ensures r < TWO_32
  {
    x % TWO_32
  }

  /** Filter time in microseconds. */
  function CellFilterInt(cellFilter: Byte): nat {
    if cellFilter == 0 then 800 else if cellFilter == 1 then 1310
    else if cellFilter == 2 then 4380 else if cellFilter == 3 then 16670 else 800
  }

  function ValidWindow(cells: nat, cellFilter: Byte, measureCycle: Byte): nat {
    Wrap(Wrap(10000 * measureCycle - Wrap((cells + 1) * CellFilterInt(cellFilter))) + 1600)
  }

  /** The window without wrapping. */
  function Intended(cells: nat, cellFilter: Byte, measureCycle: Byte): int {
    10000 * measureCycle - (cells + 1) * CellFilterInt(cellFilter) + 1600
  }

  /** The unsigned window is the intended one exactly when the filter time fits in the cycle and its margin;
  otherwise it is off by a multiple of 2^32. */
  lemma WindowExact(cells: nat, cellFilter: Byte, measureCycle: Byte)
    ensures ValidWindow(cells, cellFilter, measureCycle) == Intended(cells, cellFilter, measureCycle)
       <==> (cells + 1) * CellFilterInt(cellFilter) <= 10000 * measureCycle + 1600
    ensures (ValidWindow(cells, cellFilter, measureCycle) - Intended(cells, cellFilter, measureCycle)) % TWO_32 == 0
  {
    hide CellFilterInt;
    var filter := (cells + 1) * CellFilterInt(cellFilter);
    WrapShift(filter, 10000 * measureCycle, 1600);
    assert ValidWindow(cells, cellFilter, measureCycle) == Wrap(Intended(cells, cellFilter, measureCycle));
    WrapDistance(Intended(cells, cellFilter, measureCycle));
  }

  lemma WrapDistance(x: int)
    requires x < TWO_32
    ensures Wrap(x) == x <==> x >= 0
    ensures (Wrap(x) - x) % TWO_32 == 0
  {
  }

  lemma WrapShift(x: int, y: int, z: int)
    ensures Wrap(Wrap(y - Wrap(x)) + z) == Wrap(y - x + z)
  {
  }

  function DataValid(now: nat, timestamp: nat, window: nat): bool {
    now < Wrap(timestamp + window)
  }

  /** The test agrees with the true elapsed time exactly when now and the deadline both wrapped or both did not. */
  lemma ValidUnlessOneWraps(timestamp: nat, elapsed: nat, window: nat)
    requires timestamp < TWO_32 && elapsed < TWO_32 && window < TWO_32
    ensures (DataValid(Wrap(timestamp + elapsed), timestamp, window) <==> elapsed < window)
       <==> (timestamp + elapsed < TWO_32 <==> timestamp + window < TWO_32)
  {
    WrapOnce(timestamp + elapsed);
    WrapOnce(timestamp + window);
  }

  lemma WrapOnce(x: nat)
    requires x < 2 * TWO_32
    ensures Wrap(x) == if x < TWO_32 then x else x - TWO_32
  {
  }

  /** The window of the shipped settings: five cells, cell filter 3, measure cycle 31. */
  lemma ShippedWindow()
    ensures ValidWindow(5, 3, 31) == 211580
  {
    WindowExact(5, 3, 31);
  }

  /** The windows of all cell filters at five cells and measure cycle 31; settings beyond 3 count as 0. */
  lemma FilterWindows(cellFilter: Byte)
    ensures ValidWindow(5, cellFilter, 31)
         == if cellFilter == 1 then 303740 else if cellFilter == 2 then 285320
            else if cellFilter == 3 then 211580 else 306800
  {
    WindowExact(5, cellFilter, 31);
  }

  /** Five cells with cell filter 3 and a measure cycle of 9 underflow: data counts as valid for over an hour. */
  lemma ShortCycleUnderflows()
    ensures ValidWindow(5, 3, 9) == TWO_32 - 8420
    ensures DataValid(3_600_000_000, 0, ValidWindow(5, 3, 9))
  {
    WrapShift(100020, 90000, 1600);
  }

  /** A ready pulse late in the counter's range: its data is refused from the first microsecond until the counter
  wraps, although it is fresh. */
  lemma FreshDataRefused(timestamp: nat, elapsed: nat)
    requires timestamp < TWO_32 <= timestamp + ValidWindow(5, 3, 31)
    requires timestamp + elapsed < TWO_32
    ensures elapsed < ValidWindow(5, 3, 31) && !DataValid(Wrap(timestamp + elapsed), timestamp, ValidWindow(5, 3, 31))
  {
    ShippedWindow();
    WrapOnce(timestamp + elapsed);
    WrapOnce(timestamp + 211580);
  }
}
