/** The slot recorder `runtime_statistique` (mod_status_text.c:145-329): after
    every request the worker that served it updates its own slot of the
    status-text table — status and byte counters, the response-time histogram,
    the last time, the halving average and the ten-sample percentile window. */
module Recorder {
  import opened Sorting
  import opened Counters

  /** The window expires when `now - first_trend` exceeds `10*1000`, counted in
      the units of the request clock `now` (microseconds for `apr_time_now()`). */
  const TrendWindow := 10 * 1000
  /** Capacity of the sample window `trend[10]`. */
  const TrendCapacity := 10
  /** Index read from the sorted window: the 9th smallest of ten samples. */
  const PercentileRank := 8

  predicate WindowExpired(now: int, firstTrend: int) {
    now - firstTrend > TrendWindow
  }

  /** `(now - request_time)/1000` with C's division, which truncates toward
      zero: a positive result needs at least 1000 clock units. */
  function ElapsedMillis(now: int, requestTime: int): (ms: int)
    ensures ms > 0 <==> now - requestTime >= 1000
    ensures now - requestTime >= 0 ==> 0 <= ms && ms * 1000 <= now - requestTime < ms * 1000 + 1000
    ensures now - requestTime < 0 ==> ms <= 0 && ms * 1000 - 1000 < now - requestTime <= ms * 1000
  {
    var d := now - requestTime;
    if d >= 0 then d / 1000 else -((-d) / 1000)
  }

  /** The `avg` update (mod_status_text.c:173-174): the first sample is taken
      as is, later ones halve the distance to the new sample. The result lies
      between the old average and the sample. */
  function NextAvg(avg: int, x: int): (r: int)
    requires avg >= 0 && x > 0
    ensures r > 0
    ensures avg == 0 ==> r == x
    ensures avg > 0 && avg <= x ==> avg <= r <= x
    ensures avg > 0 && x <= avg ==> x <= r <= avg
  {
    if avg != 0 then (avg + x) / 2 else x
  }

  /** `avg` after a run of requests with the given elapsed times, starting
      from `avg`; times that are not positive leave it alone. */
  function FilterReplay(avg: int, samples: seq<int>): (r: int)
    requires avg >= 0
    ensures r >= 0
    decreases |samples|
  {
    if |samples| == 0 then avg
    else FilterReplay(if samples[0] > 0 then NextAvg(avg, samples[0]) else avg, samples[1..])
  }

  /** The halving filter never leaves the range of what it has been fed: when
      the start value and every positive sample lie in [lo, hi], so does the
      result, unless nothing positive was ever fed to a zero filter. */
  lemma {:induction false} FilterStaysInRange(avg: int, samples: seq<int>, lo: int, hi: int)
    requires 0 < lo <= hi
    requires avg == 0 || lo <= avg <= hi
    requires forall k :: 0 <= k < |samples| && samples[k] > 0 ==> lo <= samples[k] <= hi
    ensures var r := FilterReplay(avg, samples);
      (r == 0 <==> avg == 0 && forall k :: 0 <= k < |samples| ==> samples[k] <= 0)
      && (r == 0 || lo <= r <= hi)
    decreases |samples|
  {
    if |samples| > 0 {
      var next := if samples[0] > 0 then NextAvg(avg, samples[0]) else avg;
      FilterStaysInRange(next, samples[1..], lo, hi);
      assert forall k :: 1 <= k < |samples| ==> samples[k] == samples[1..][k - 1];
    }
  }

  /** The in-place sort of a full window of positive samples: the result is
      `Sort` of the window, an ascending permutation of it, still positive. */
  method SortWindow(a: array<int>)
    requires a.Length == TrendCapacity
    requires forall k :: 0 <= k < a.Length ==> a[k] > 0
    modifies a
    ensures a[..] == Sort(old(a[..]))
    ensures Sorted(a[..]) && multiset(a[..]) == multiset(old(a[..]))
    ensures forall k :: 0 <= k < a.Length ==> a[k] > 0
  {
    ghost var window := a[..];
    InsertionSort(a, TrendCapacity);
    assert a[..] == Sort(window) by {
      assert a[..] == a[..TrendCapacity] && window == window[..TrendCapacity];
    }
    SortCorrect(window);
    SortKeepsLowerBound(window, 1);
  }

  /** What the aggregation reads of a slot. */
  datatype SlotView = SlotView(counters: seq<nat>, avg: int, percentil: int)

  /** One record of the status-text table (`status_text_scoreboard_t`,
      mod_status_text.c:68-118). The 35 counters are kept in declaration
      order: requests per status bucket, bytes per status bucket, requests per
      response-time bucket. */
  class SlotRecord {
    var counters: seq<nat>
    var last: int
    var avg: int
    var percentil: int
    var firstTrend: int
    const trend: array<int>
    var trendPos: int

    ghost predicate Valid()
      reads this, trend
    {
      && |counters| == NumCounters
      && trend.Length == TrendCapacity
      && 0 <= trendPos <= TrendCapacity
      && avg >= 0
      && percentil >= 0
      // the samples of the current window are all positive response times
      && forall k :: 0 <= k < trendPos ==> trend[k] > 0
    }

    function View(): SlotView
      reads this
    {
      SlotView(counters, avg, percentil)
    }

    ghost predicate Zeroed()
      reads this, trend
    {
      && counters == seq(NumCounters, _ => 0)
      && last == 0 && avg == 0 && percentil == 0 && firstTrend == 0 && trendPos == 0
      && trend[..] == seq(trend.Length, _ => 0)
    }

    /** A zero-filled record, as the table is cleared when it is created. */
    constructor ()
      ensures Valid() && Zeroed() && fresh(trend)
    {
      counters := seq(NumCounters, _ => 0);
      last, avg, percentil, firstTrend := 0, 0, 0, 0;
      trend := new int[TrendCapacity](_ => 0);
      trendPos := 0;
    }

    /** The state change of recording one finished request with response
        `status`, `bytes` sent, `elapsed` milliseconds and request clock `now`. */
    twostate predicate RecordedRequest(status: int, bytes: nat, elapsed: int, now: int)
      reads this, trend
    {
      // counters: one status bucket and one time bucket, whatever `elapsed` is
      && |old(counters)| == NumCounters
      && counters == Recorded(old(counters), status, bytes, elapsed)
      // a response time that is not positive leaves the statistics alone
      && (elapsed <= 0 ==>
        && last == old(last) && avg == old(avg) && percentil == old(percentil)
        && firstTrend == old(firstTrend) && trendPos == old(trendPos)
        && trend[..] == old(trend[..]))
      && (elapsed > 0 ==>
        && last == elapsed
        && old(avg) >= 0 && avg == NextAvg(old(avg), elapsed)
        && avg > 0 && percentil > 0)
      // an expired window restarts from the average; the sample is stored twice
      && (elapsed > 0 && WindowExpired(now, old(firstTrend)) ==>
        && percentil == avg && firstTrend == now
        && trendPos == 2
        && trend.Length >= 2
        && trend[..] == [elapsed, elapsed] + old(trend[2..]))
      // a window with room takes the sample; a zero estimate takes the average
      && (elapsed > 0 && !WindowExpired(now, old(firstTrend)) && old(trendPos) < TrendCapacity ==>
        && 0 <= old(trendPos) < trend.Length
        && trendPos == old(trendPos) + 1
        && trend[..] == old(trend[..])[old(trendPos) := elapsed]
        && (old(percentil) == 0 ==> percentil == avg && firstTrend == now)
        && (old(percentil) != 0 ==> percentil == old(percentil) && firstTrend == old(firstTrend)))
      // a full window is sorted, yields its 9th smallest sample and restarts;
      // the current sample is not stored
      && (elapsed > 0 && !WindowExpired(now, old(firstTrend)) && old(trendPos) == TrendCapacity ==>
        && trend.Length > PercentileRank
        && Sorted(trend[..]) && multiset(trend[..]) == multiset(old(trend[..]))
        && trend[..] == Sort(old(trend[..]))
        && percentil == trend[PercentileRank]
        && firstTrend == now
        && trendPos == 0)
    }

    /** Records one finished request (mod_status_text.c:145-329). */
    method Record(status: int, bytes: nat, elapsed: int, now: int)
      requires Valid()
      modifies this, trend
      ensures Valid()
      ensures RecordedRequest(status, bytes, elapsed, now)
    {
      if elapsed > 0 {
        Sample(elapsed, now);
      }
      CountRequest(status, bytes, elapsed);
    }

    /** The response-time statistics of a request that took `elapsed > 0`
        milliseconds (mod_status_text.c:169-231). */
    method Sample(elapsed: int, now: int)
      requires Valid() && elapsed > 0
      modifies this`last, this`avg, this`percentil, this`firstTrend, this`trendPos, trend
      ensures Valid()
      ensures last == elapsed && avg == NextAvg(old(avg), elapsed) && avg > 0 && percentil > 0
      ensures WindowExpired(now, old(firstTrend)) ==>
        && percentil == avg && firstTrend == now
        && trendPos == 2
        && trend[..] == [elapsed, elapsed] + old(trend[2..])
      ensures !WindowExpired(now, old(firstTrend)) && old(trendPos) < TrendCapacity ==>
        && trendPos == old(trendPos) + 1
        && trend[..] == old(trend[..])[old(trendPos) := elapsed]
        && (old(percentil) == 0 ==> percentil == avg && firstTrend == now)
        && (old(percentil) != 0 ==> percentil == old(percentil) && firstTrend == old(firstTrend))
      ensures !WindowExpired(now, old(firstTrend)) && old(trendPos) == TrendCapacity ==>
        && Sorted(trend[..]) && multiset(trend[..]) == multiset(old(trend[..]))
        && trend[..] == Sort(old(trend[..]))
        && percentil == trend[PercentileRank]
        && firstTrend == now
        && trendPos == 0
    {
      last := elapsed;
      if avg != 0 {
        avg := (avg + elapsed) / 2;
      } else {
        avg := elapsed;
      }
      Window(elapsed, now);
    }

    /** The percentile window (mod_status_text.c:176-231), entered with the
        average already updated to a positive value. */
    method Window(elapsed: int, now: int)
      requires Valid() && elapsed > 0 && avg > 0
      modifies this`percentil, this`firstTrend, this`trendPos, trend
      ensures Valid() && percentil > 0
      ensures WindowExpired(now, old(firstTrend)) ==>
        && percentil == avg && firstTrend == now
        && trendPos == 2
        && trend[..] == [elapsed, elapsed] + old(trend[2..])
      ensures !WindowExpired(now, old(firstTrend)) && old(trendPos) < TrendCapacity ==>
        && trendPos == old(trendPos) + 1
        && trend[..] == old(trend[..])[old(trendPos) := elapsed]
        && (old(percentil) == 0 ==> percentil == avg && firstTrend == now)
        && (old(percentil) != 0 ==> percentil == old(percentil) && firstTrend == old(firstTrend))
      ensures !WindowExpired(now, old(firstTrend)) && old(trendPos) == TrendCapacity ==>
        && Sorted(trend[..]) && multiset(trend[..]) == multiset(old(trend[..]))
        && trend[..] == Sort(old(trend[..]))
        && percentil == trend[PercentileRank]
        && firstTrend == now
        && trendPos == 0
    {
      if now - firstTrend > TrendWindow {
        percentil := avg;
        firstTrend := now;
        trendPos := 0;
        trend[trendPos] := elapsed;
        trendPos := trendPos + 1;
      }
      if trendPos < TrendCapacity {
        trend[trendPos] := elapsed;
        trendPos := trendPos + 1;
      } else {
        CloseWindow(now);
      }
      if percentil == 0 {
        percentil := avg;
        firstTrend := now;
      }
    }

    /** A full window (mod_status_text.c:200-224): its ten samples are sorted
        in place, the 9th smallest becomes the estimate and a new window opens.
        The sample being recorded is not stored. */
    method CloseWindow(now: int)
      requires Valid() && trendPos == TrendCapacity
      modifies this`percentil, this`firstTrend, this`trendPos, trend
      ensures Valid()
      ensures Sorted(trend[..]) && multiset(trend[..]) == multiset(old(trend[..]))
      ensures trend[..] == Sort(old(trend[..]))
      ensures percentil == trend[PercentileRank] && percentil > 0
      ensures firstTrend == now && trendPos == 0
    {
      SortWindow(trend);
      percentil := trend[PercentileRank];
      firstTrend := now;
      trendPos := 0;
    }

    /** The histogram chain (mod_status_text.c:235-260), which runs for every
        request, then the status chain (mod_status_text.c:263-326). */
    method CountRequest(status: int, bytes: nat, elapsed: int)
      requires |counters| == NumCounters
      modifies this`counters
      ensures counters == Recorded(old(counters), status, bytes, elapsed)
    {
      var b := HistogramBucket(elapsed);
      var cs := counters[HistField(b) := counters[HistField(b)] + 1];
      var c := StatusClassOf(status);
      cs := cs[ReqsField(c) := cs[ReqsField(c)] + 1];
      counters := cs[BytesField(c) := cs[BytesField(c)] + bytes];
    }
  }
}
