# mod_status_text: slot recorder and report aggregation

`mod_status_text` is an Apache HTTP Server module. Every worker thread owns
one record ("slot") in a shared table, laid out flat as
`server_limit * thread_limit` records and indexed by
`child_num * thread_limit + thread_num`. After every request,
`runtime_statistique` updates the worker's own slot:

- eleven request counters and eleven byte counters, chosen by response status;
- thirteen response-time histogram buckets;
- the last response time and a halving average;
- a ten-sample window whose ninth-smallest sample becomes the slot's
  90th-percentile estimate.

The status handler `status_text_handler` walks every slot and does three things:

- it sums the counters;
- it averages the per-slot averages of workers that are neither dead nor ready;
- it gathers the per-slot estimates of workers that are not dead. It sorts them
  with an insertion sort and reports the one at 90% of their number. It also
  counts ready and busy workers and totals accesses and bytes.

This project models that recorder and that aggregation and proves what they
compute.

Modules:

- `Sorting`: the recursive insertion sort `Sort`, used as the specification. It
  is an ascending permutation, and it is the only one. `InsertionSort` is the
  in-place array loop, proved equal to `Sort`.
- `Ranks`: `CountBelow`, the number of elements below a bound, and the
  order-statistic property of a sorted read.
- `Counters`: the 35-counter layout, the status chain and the response-time
  chain, and `Recorded`, the counter update of one request.
- `Recorder`: the class `SlotRecord`, with a `trend` array of length 10, and its
  `Record` method.
- `Scoreboard`: the slot table `SlotTable`, the slot index arithmetic, and the
  per-request hook `RecordRequest`.
- `Aggregator`: the handler's nested loops, written as methods over a snapshot.
  Each method is proved against specification functions (`Columns`, `MeanAvg`,
  `Collected`, `GlobalPercentile`, ...). Lemmas state what the report means.
- `Scenarios`: worked runs of the recorder, including the ten-sample run
  10, 20, ..., 100 ms.

Facts about the C code that a reader might not expect, all kept in the model:

- **Histogram.** It is updated for every request, including when the elapsed
  time is zero or negative. Such a request goes into the 0–50 ms bucket. The
  slot declares thirteen bucket fields (mod_status_text.c:96-108), the last for
  30 s and above. The 30 s limit is the only exclusive one (`< 30*1000`,
  mod_status_text.c:257).
- **Window length.** The comment at mod_status_text.c:176 says the window is
  reset after "more than 10s". The test at mod_status_text.c:177 compares
  `now - first_trend` with `10*1000` on the `apr_time_now()` clock, which counts
  microseconds. So the window lasts 10 ms.
- **Window opening.** When the window expires, the current sample is stored at
  position 0 (mod_status_text.c:189) and stored again by the append that
  follows (mod_status_text.c:196), so it is counted twice.
- **Full window.** When the window is full, it is sorted and sample 8 becomes
  the estimate (mod_status_text.c:205-217). The current sample is not stored.
- **Ten-sample run.** On a fresh slot, with a clock reading past the window
  length, ten requests of 10, 20, ..., 100 ms end with an estimate of 80 and an
  average of 90 (`Scenarios.TenSampleWindow`). The first request opens a window
  and is stored twice, and the tenth finds the window full. With a clock
  reading within the window length of zero, the first request is stored once,
  nothing is sorted, and after ten requests the estimate is still the first
  average, 10 (`Scenarios.TenSampleOpenWindow`).
- **Which workers count.** The average leaves out DEAD and READY workers
  (mod_status_text.c:476). The percentile gathering leaves out only DEAD
  workers (mod_status_text.c:483).
- **Ready of another generation.** A READY worker whose process belongs to
  another generation is counted as busy, through the `else if` fall-through
  (mod_status_text.c:492-498).
- **Empty gather.** When nothing was gathered, the global estimate reads element
  0 of the zero-filled array (mod_status_text.c:389, 572), which is 0.
- **Arithmetic.** `(unsigned long)((double)n * 0.9)` is modelled as `(9*n)/10`.
  `1.5*1000` is modelled as 1500. `bcount >> 10` and `bcount & 0x3ff` are
  modelled as `/ 1024` and `% 1024`.
- **Scan order.** The summed counters and the total average depend only on
  what the slots hold, not on the order in which they are scanned
  (`Aggregator.ColumnsPermute`, `Aggregator.MeanAvgPermute`).

## Model

| member | source | states |
|---|---|---|
| Sorting.Sort | mod_status_text.c:205-215 | the insertion sort as a function: same length as its input |
| Sorting.InsertMultiset | mod_status_text.c:205-215 | inserting `x` adds exactly `x` to the multiset |
| Sorting.InsertSorted | mod_status_text.c:205-215 | inserting into a sorted sequence keeps it sorted |
| Sorting.SortCorrect | mod_status_text.c:205-215 | `Sort(s)` is ascending and a permutation of `s` |
| Sorting.SortedUnique | mod_status_text.c:205-215 | two ascending sequences with the same multiset are equal |
| Sorting.SortIsUnique | mod_status_text.c:559-569 | every ascending permutation of `s` is `Sort(s)` |
| Sorting.SortKeepsLowerBound | mod_status_text.c:559-569 | a lower bound of every input element bounds every sorted element |
| Sorting.ShiftInsert | mod_status_text.c:561-568 | one pass of the outer loop: `a[..i+1]` becomes `Insert(old a[..i], old a[i])`; the rest of the array is unchanged |
| Sorting.InsertionSort | mod_status_text.c:559-569 | `a[..n]` becomes `Sort(old a[..n])`; `a[n..]` is unchanged |
| Reduction.SumOfAppend | mod_status_text.c:428-466 | a sum over a concatenation is the sum of the two sums |
| Reduction.SumOfPermute | mod_status_text.c:428-466 | a sum over the slots depends only on the multiset of what is summed, not on the order |
| Ranks.CountBelowSort | mod_status_text.c:559-572 | sorting does not change how many elements lie below a bound |
| Ranks.OrderStatistic | mod_status_text.c:216-217 | element `pos` of the sorted sequence has at most `pos` elements strictly below it and at least `pos+1` at or below it |
| Counters.StatusClassOf | mod_status_text.c:263-326 | each status lands in exactly one of the eleven buckets, characterised both ways by its range |
| Counters.HistogramBucket | mod_status_text.c:235-260 | the chosen bucket is the one whose limits contain the elapsed time (`<=` limits, `< 30000` for the twelfth) |
| Counters.BucketsDisjoint | mod_status_text.c:235-260 | no elapsed time lies in two buckets |
| Counters.Recorded | mod_status_text.c:235-326 | the status bucket's request counter +1, its byte counter +bytes, the time bucket +1, every other counter unchanged |
| Counters.RecordedTotals | mod_status_text.c:235-326 | over each counter group, one request adds 1 request, `bytes` bytes and 1 histogram entry |
| Recorder.ElapsedMillis | mod_status_text.c:165 | `(now-request_time)/1000` truncating toward zero: positive iff at least 1000 clock units elapsed, and bounded by the quotient |
| Recorder.NextAvg | mod_status_text.c:173-174 | the first sample is taken as is; later values lie between the old average and the sample, and are positive |
| Recorder.FilterStaysInRange | mod_status_text.c:173-174 | after any run of samples in `[lo, hi]` the average stays in `[lo, hi]`; it is zero iff it started at zero and saw no positive sample |
| Recorder.SortWindow | mod_status_text.c:205-215 | the in-place sort of a full window yields `Sort` of it, an ascending positive permutation |
| Recorder.SlotRecord.constructor | mod_status_text.c:1409 | a zero-filled record |
| Recorder.SlotRecord.Record | mod_status_text.c:145-329 | the whole recorder: counters are `Recorded(old, ...)` for every elapsed time; a non-positive time leaves the statistics alone; a positive one sets `last`, moves `avg` by `NextAvg`, and either restarts an expired window (sample stored twice, estimate := avg), appends to a window with room (a zero estimate takes the average), or sorts a full window and takes sample 8 |
| Recorder.SlotRecord.Sample | mod_status_text.c:169-231 | `last` and `avg` update, then the window |
| Recorder.SlotRecord.Window | mod_status_text.c:176-231 | the three window cases and the zero-estimate fallback |
| Recorder.SlotRecord.CloseWindow | mod_status_text.c:200-224 | a full window is sorted, the estimate is its ninth smallest sample (positive), a new window opens at `now` |
| Recorder.SlotRecord.CountRequest | mod_status_text.c:235-326 | counters become `Recorded(old counters, status, bytes, elapsed)` |
| Scoreboard.SlotIndex | mod_status_text.c:153 | `child*thread_limit + thread` lies inside the table |
| Scoreboard.SlotOwner | mod_status_text.c:421 | every slot has an owner within the limits whose index is that slot |
| Scoreboard.SlotOwnerOfIndex | mod_status_text.c:421 | distinct workers own distinct slots: the owner of a worker's slot is that worker |
| Scoreboard.SlotTable.constructor | mod_status_text.c:1409 | `server_limit*thread_limit` distinct zeroed records |
| Scoreboard.SlotTable.RecordRequest | mod_status_text.c:145-165 | the request's own slot, found by `child*thread_limit + thread`, records the request with elapsed time `(now - request_time)/1000`: its whole new state is as `Record` states (`SlotRecord.RecordedRequest`); every other slot and its window are unchanged |
| Aggregator.AvgSum | mod_status_text.c:476-481 | the sum of averages is zero exactly when no slot enters the mean |
| Aggregator.Collected | mod_status_text.c:483-488 | at most one estimate per slot, all positive |
| Aggregator.PercentilePos | mod_status_text.c:571 | the position read lies inside the gathered part |
| Aggregator.WithRecorded | mod_status_text.c:235-326 | replacing one slot's counters by their value after one more request keeps the snapshot well formed (its average and estimate are left as they were) |
| Aggregator.ColumnsReplace | mod_status_text.c:428-466 | changing one slot's counters changes each column sum by exactly that slot's difference |
| Aggregator.RecordedRequestReported | mod_status_text.c:428-466 | a request recorded in any slot raises the reported request total of its status bucket and of its time bucket by 1 and the byte total by `bytes`; no other total moves |
| Aggregator.ColumnsAsSum | mod_status_text.c:428-466 | each of the 35 totals is that field summed over the slots' counter vectors |
| Aggregator.ColumnsPermute | mod_status_text.c:412-466 | two snapshots whose slots hold the same counter vectors in any order report the same 35 totals |
| Aggregator.AvgAsSum | mod_status_text.c:476-481 | the sum and count of averages are sums of per-slot contributions |
| Aggregator.MeanAvgPermute | mod_status_text.c:476-481 | the sum, count and mean of averages do not depend on the order of the slots |
| Aggregator.AvgSumBounds | mod_status_text.c:476-481 | the sum of entering averages lies between count*lo and count*hi |
| Aggregator.MeanAvgWithinRange | mod_status_text.c:556 | the total average is 0 when no slot enters and otherwise lies within the range of the entering averages |
| Aggregator.GlobalPercentileRank | mod_status_text.c:571-572 | the global estimate is zero iff nothing was gathered; otherwise it is one of the gathered estimates, at most 90% of them lie strictly below it and at least 90% are at or below it |
| Aggregator.WorkerCountsBounded | mod_status_text.c:490-499 | ready + busy never exceeds the number of slots |
| Aggregator.AccessesCountEveryWorker | mod_status_text.c:504-508 | the traffic filter drops no access: a worker it skips has served none |
| Aggregator.SnapshotWellFormed | mod_status_text.c:412-424 | the snapshot of a valid table is well formed |
| Aggregator.ProcessSlots | mod_status_text.c:418-421 | the `thread_limit` slots from `i*thread_limit` belong to process `i` |
| Aggregator.CollectSlot | mod_status_text.c:424-543 | one slot adds to the running sums; the running sums and the gathered array describe the first `m+1` slots, with the byte remainder kept below 1024 |
| Aggregator.CollectProcess | mod_status_text.c:419-544 | the inner loop extends the description from slot `i*thread_limit` to `(i+1)*thread_limit` |
| Aggregator.Conclude | mod_status_text.c:556-572 | the average is `MeanAvg`; the gathered part is sorted into `Sort(Collected)`; the rest stays zero; the estimate is `GlobalPercentile` |
| Aggregator.Tally | mod_status_text.c:412-572 | the handler's totals equal the specification functions over all slots; `kbcount = bytes / 1024` and `bcount = bytes % 1024` |
| Aggregator.Aggregate | mod_status_text.c:412-572 | the same, read from a slot table |
| Scenarios.FirstRequest | mod_status_text.c:145-329 | a first 200 response of 512 bytes taking 25 ms sets last, avg and estimate to 25 and one counter of each kind |
| Scenarios.FillMiddle | mod_status_text.c:193-199 | three more samples are appended to a window with room |
| Scenarios.FillEnd | mod_status_text.c:193-199 | the window fills up to ten samples |
| Scenarios.CloseFull | mod_status_text.c:200-224 | the eleventh sample closes the full window with estimate 80 and is not stored |
| Scenarios.TenSampleWindow | mod_status_text.c:145-231 | from a clock past the window length, ten samples 10..100 ms end with estimate 80, average 90, window `[10,10,20,...,90]` |
| Scenarios.OpenThree | mod_status_text.c:169-199 | from a clock within the window length, the first sample is stored once and its average becomes the estimate |
| Scenarios.AppendFour | mod_status_text.c:193-199 | four more samples are appended |
| Scenarios.AppendLast | mod_status_text.c:193-199 | the window fills with all ten samples; nothing is sorted |
| Scenarios.TenSampleOpenWindow | mod_status_text.c:145-231 | from a clock within the window length, ten samples 10..100 ms end with estimate 10, average 90, window `[10,20,...,100]` and cursor 10 |

## Left out

- The text report and its attribute dispatch (mod_status_text.c:581-1107), the
  per-worker listing (1114-1244), and shared-memory setup, configuration and
  hook registration (1249-1437). These are output formatting and server
  plumbing.
- CPU times under `HAVE_TIMES` and the `stat_buffer`/`pid_buffer` side arrays.
  They feed only the report text.
- 64-bit wrap-around of the `apr_uint64_t` and `apr_time_t` counters. Integers
  are unbounded, so no counter overflows in the model.
- Concurrency. Workers update their slots while the handler reads them. The
  aggregation is modelled over one consistent snapshot, so torn reads are not
  captured.
- The clock and the request. `now`, `request_time`, `status`, `bytes_sent` and
  Apache's own worker and process scoreboard entries are parameters.
- Aggregator.PercentilePos: the double product `n * 0.9` truncated to an integer
  is modelled as `(9*n)/10`. The two agree for every count a table can hold,
  but floating-point rounding is not modelled.
- Scan-order independence is proved for the 35 summed counters and the total
  average. The ready and busy counts read the process entry of each slot, and
  no permutation lemma is stated for them or for the gathered percentiles.
- The source line that prints the sorted percentile array (1082-1084) is
  report formatting. `Aggregate` returns the whole array.
