/** Worked runs of the slot recorder on a freshly cleared slot. */
module Scenarios {
  import opened Sorting
  import opened Counters
  import opened Recorder

  /** One `200` response of 512 bytes that took 25 ms. The zeroed window
      start makes the first sample open a new window (stored twice) when the
      clock is past the window length; otherwise the sample is appended once
      and, the estimate being zero, the estimate takes the average. Either way
      all three times read 25. */
  method FirstRequest(now: int) returns (slot: SlotRecord)
    ensures slot.Valid()
    ensures slot.counters[ReqsField(Exact200)] == 1 && slot.counters[BytesField(Exact200)] == 512
    ensures slot.counters[HistField(0)] == 1
    ensures slot.last == 25 && slot.avg == 25 && slot.percentil == 25
    ensures slot.firstTrend == now
    ensures slot.trendPos == if now > TrendWindow then 2 else 1
  {
    slot := new SlotRecord();
    slot.Record(200, 512, 25, now);
  }

  /** The slot holds window `w` with `pos` samples, the given average and
      estimate, a window opened at `now`, and `n` requests counted as `200`. */
  ghost predicate Holds(slot: SlotRecord, w: seq<int>, pos: int, avg: int, percentil: int, now: int, n: nat)
    reads slot, slot.trend
  {
    && slot.Valid()
    && slot.trend[..] == w && slot.trendPos == pos
    && slot.avg == avg && slot.percentil == percentil && slot.firstTrend == now
    && slot.counters[ReqsField(Exact200)] == n
  }

  method FillMiddle(slot: SlotRecord, now: int)
    requires Holds(slot, [10, 10, 20, 30, 0, 0, 0, 0, 0, 0], 4, 22, 10, now, 3)
    modifies slot, slot.trend
    ensures Holds(slot, [10, 10, 20, 30, 40, 50, 60, 0, 0, 0], 7, 50, 10, now, 6)
  {
    slot.Record(200, 0, 40, now);
    slot.Record(200, 0, 50, now);
    slot.Record(200, 0, 60, now);
  }

  method FillEnd(slot: SlotRecord, now: int)
    requires Holds(slot, [10, 10, 20, 30, 40, 50, 60, 0, 0, 0], 7, 50, 10, now, 6)
    modifies slot, slot.trend
    ensures Holds(slot, [10, 10, 20, 30, 40, 50, 60, 70, 80, 90], 10, 80, 10, now, 9)
  {
    slot.Record(200, 0, 70, now);
    slot.Record(200, 0, 80, now);
    slot.Record(200, 0, 90, now);
  }

  method CloseFull(slot: SlotRecord, now: int)
    requires Holds(slot, [10, 10, 20, 30, 40, 50, 60, 70, 80, 90], 10, 80, 10, now, 9)
    modifies slot, slot.trend
    ensures Holds(slot, [10, 10, 20, 30, 40, 50, 60, 70, 80, 90], 0, 90, 80, now, 10)
    ensures slot.last == 100
  {
    ghost var window := slot.trend[..];
    assert Sorted(window);
    SortIsUnique(window, window);
    slot.Record(200, 0, 100, now);
  }

  /** Ten requests taking 10, 20, ..., 100 ms, all at one clock reading past
      the window length. The first opens the window and is stored twice, the
      next eight fill it, and the tenth finds it full: the window is sorted,
      its ninth-smallest sample (80) becomes the estimate and the tenth sample
      is not stored. The halving average ends at 90. */
  method TenSampleWindow(now: int) returns (slot: SlotRecord)
    requires now > TrendWindow
    ensures slot.Valid()
    ensures slot.percentil == 80 && slot.avg == 90 && slot.last == 100
    ensures slot.trend[..] == [10, 10, 20, 30, 40, 50, 60, 70, 80, 90]
    ensures slot.trendPos == 0 && slot.firstTrend == now
    ensures slot.counters[ReqsField(Exact200)] == 10
  {
    slot := new SlotRecord();
    slot.Record(200, 0, 10, now);
    slot.Record(200, 0, 20, now);
    slot.Record(200, 0, 30, now);
    FillMiddle(slot, now);
    FillEnd(slot, now);
    CloseFull(slot, now);
  }

  method OpenThree(now: int) returns (slot: SlotRecord)
    requires now <= TrendWindow
    ensures Holds(slot, [10, 20, 30, 0, 0, 0, 0, 0, 0, 0], 3, 22, 10, now, 3)
    ensures fresh(slot) && fresh(slot.trend)
  {
    slot := new SlotRecord();
    slot.Record(200, 0, 10, now);
    slot.Record(200, 0, 20, now);
    slot.Record(200, 0, 30, now);
  }

  method AppendFour(slot: SlotRecord, now: int)
    requires Holds(slot, [10, 20, 30, 0, 0, 0, 0, 0, 0, 0], 3, 22, 10, now, 3)
    modifies slot, slot.trend
    ensures Holds(slot, [10, 20, 30, 40, 50, 60, 70, 0, 0, 0], 7, 60, 10, now, 7)
  {
    slot.Record(200, 0, 40, now);
    slot.Record(200, 0, 50, now);
    slot.Record(200, 0, 60, now);
    slot.Record(200, 0, 70, now);
  }

  method AppendLast(slot: SlotRecord, now: int)
    requires Holds(slot, [10, 20, 30, 40, 50, 60, 70, 0, 0, 0], 7, 60, 10, now, 7)
    modifies slot, slot.trend
    ensures Holds(slot, [10, 20, 30, 40, 50, 60, 70, 80, 90, 100], 10, 90, 10, now, 10)
    ensures slot.last == 100
  {
    slot.Record(200, 0, 80, now);
    slot.Record(200, 0, 90, now);
    slot.Record(200, 0, 100, now);
  }

  /** The same ten requests with a clock reading within the window length of
      the zeroed window start: the first sample is stored once and takes the
      average as estimate, the window fills up with all ten samples, and as
      nothing is sorted before an eleventh request the estimate stays 10. */
  method TenSampleOpenWindow(now: int) returns (slot: SlotRecord)
    requires now <= TrendWindow
    ensures slot.Valid()
    ensures slot.percentil == 10 && slot.avg == 90 && slot.last == 100
    ensures slot.trend[..] == [10, 20, 30, 40, 50, 60, 70, 80, 90, 100]
    ensures slot.trendPos == 10 && slot.firstTrend == now
    ensures slot.counters[ReqsField(Exact200)] == 10
  {
    slot := OpenThree(now);
    AppendFour(slot, now);
    AppendLast(slot, now);
  }
}
