/** The aggregation half of `status_text_handler` (mod_status_text.c:412-572):
    one pass over every worker slot sums the 35 counters, averages the
    per-slot averages, collects the per-slot percentiles, counts ready and
    busy workers and totals the traffic; then the collected percentiles are
    sorted and the one at 90% of their number becomes the global estimate. */
module Aggregator {
  import opened Sorting
  import opened Ranks
  import opened Counters
  import opened Recorder
  import opened Scoreboard
  import opened Reduction

  /** The worker states the aggregation tells apart; `Other` stands for every
      busy state (reading, writing, keep-alive, logging, DNS, closing,
      graceful). */
  datatype WorkerState = Dead | Starting | Ready | IdleKill | Other

  /** What is read of Apache's own scoreboard entry of a worker. */
  datatype WorkerScore = WorkerScore(state: WorkerState, accessCount: nat, bytesServed: nat)

  /** What is read of Apache's scoreboard entry of a process. */
  datatype ProcessScore = ProcessScore(quiescing: bool, pid: int, generation: int)

  /** Everything one aggregation reads: the status-text slots in slot order,
      the worker entries in the same order, one process entry per process,
      the thread limit and the generation of the running configuration. */
  datatype Snapshot = Snapshot(
    views: seq<SlotView>,
    workers: seq<WorkerScore>,
    procs: seq<ProcessScore>,
    threadLimit: nat,
    generation: int)

  predicate WellFormed(s: Snapshot) {
    && 0 < s.threadLimit
    && |s.views| == |s.procs| * s.threadLimit
    && |s.workers| == |s.views|
    && forall k :: 0 <= k < |s.views| ==> |s.views[k].counters| == NumCounters
  }

  /** The process that owns slot `k`. */
  function ProcessOf(s: Snapshot, k: nat): ProcessScore
    requires WellFormed(s) && k < |s.views|
  {
    s.procs[SlotOwner(k, |s.procs|, s.threadLimit).0]
  }

  /** Slot `k` enters the average: its worker is neither dead nor ready and
      it has an average. */
  predicate Averages(s: Snapshot, k: nat)
    requires WellFormed(s) && k < |s.views|
  {
    s.workers[k].state != Dead && s.workers[k].state != Ready && s.views[k].avg > 0
  }

  /** Slot `k` contributes its percentile: its worker is not dead and it has
      an estimate. */
  predicate Collects(s: Snapshot, k: nat)
    requires WellFormed(s) && k < |s.views|
  {
    s.workers[k].state != Dead && s.views[k].percentil > 0
  }

  /** The process of slot `k` is running and not shutting down. */
  predicate Live(s: Snapshot, k: nat)
    requires WellFormed(s) && k < |s.views|
  {
    !ProcessOf(s, k).quiescing && ProcessOf(s, k).pid != 0
  }

  /** Slot `k` counts as an idle worker: ready, in a live process of the
      current generation. */
  predicate CountsReady(s: Snapshot, k: nat)
    requires WellFormed(s) && k < |s.views|
  {
    Live(s, k) && s.workers[k].state == Ready && ProcessOf(s, k).generation == s.generation
  }

  /** Slot `k` counts as a busy worker: in a live process, not counted idle,
      and neither dead, starting nor being killed while idle. A ready worker
      of another generation falls through to here. */
  predicate CountsBusy(s: Snapshot, k: nat)
    requires WellFormed(s) && k < |s.views|
  {
    && Live(s, k) && !CountsReady(s, k)
    && s.workers[k].state != Dead && s.workers[k].state != Starting && s.workers[k].state != IdleKill
  }

  /** Slot `k` enters the access and byte totals: it served something, or its
      worker is neither ready nor dead. */
  predicate CountsTraffic(s: Snapshot, k: nat)
    requires WellFormed(s) && k < |s.views|
  {
    s.workers[k].accessCount != 0 || (s.workers[k].state != Ready && s.workers[k].state != Dead)
  }

  /** The 35 counters added field by field, as the handler adds a slot into
      its running totals. */
  function AddCounters(a: seq<nat>, b: seq<nat>): (r: seq<nat>)
    requires |a| == NumCounters && |b| == NumCounters
    ensures |r| == NumCounters
    ensures forall f :: 0 <= f < NumCounters ==> r[f] == a[f] + b[f]
  {
    seq(NumCounters, f requires 0 <= f < NumCounters => a[f] + b[f])
  }

  /** The 35 counters summed over the first `m` slots. */
  function Columns(s: Snapshot, m: nat): (r: seq<nat>)
    requires WellFormed(s) && m <= |s.views|
    ensures |r| == NumCounters
  {
    if m == 0 then seq(NumCounters, _ => 0) else AddCounters(Columns(s, m - 1), s.views[m - 1].counters)
  }

  /** Sum of the averages that enter the mean, over the first `m` slots. It is
      zero exactly when no slot enters. */
  function AvgSum(s: Snapshot, m: nat): (r: int)
    requires WellFormed(s) && m <= |s.views|
    ensures r >= 0
    ensures r == 0 <==> AvgCount(s, m) == 0
  {
    if m == 0 then 0 else AvgSum(s, m - 1) + (if Averages(s, m - 1) then s.views[m - 1].avg else 0)
  }

  function AvgCount(s: Snapshot, m: nat): (n: nat)
    requires WellFormed(s) && m <= |s.views|
    ensures n <= m
  {
    if m == 0 then 0 else AvgCount(s, m - 1) + (if Averages(s, m - 1) then 1 else 0)
  }

  /** The percentiles collected from the first `m` slots, in slot order; all
      of them are positive estimates. */
  function Collected(s: Snapshot, m: nat): (c: seq<int>)
    requires WellFormed(s) && m <= |s.views|
    ensures |c| <= m
    ensures forall i :: 0 <= i < |c| ==> c[i] > 0
  {
    if m == 0 then []
    else Collected(s, m - 1) + (if Collects(s, m - 1) then [s.views[m - 1].percentil] else [])
  }

  function ReadyCount(s: Snapshot, m: nat): nat
    requires WellFormed(s) && m <= |s.views|
  {
    if m == 0 then 0 else ReadyCount(s, m - 1) + (if CountsReady(s, m - 1) then 1 else 0)
  }

  function BusyCount(s: Snapshot, m: nat): nat
    requires WellFormed(s) && m <= |s.views|
  {
    if m == 0 then 0 else BusyCount(s, m - 1) + (if CountsBusy(s, m - 1) then 1 else 0)
  }

  /** Accesses of the slots that enter the traffic totals, over the first `m`. */
  function Accesses(s: Snapshot, m: nat): nat
    requires WellFormed(s) && m <= |s.views|
  {
    if m == 0 then 0
    else Accesses(s, m - 1) + (if CountsTraffic(s, m - 1) then s.workers[m - 1].accessCount else 0)
  }

  /** Accesses of every worker over the first `m` slots, filtered or not. */
  function AllAccesses(s: Snapshot, m: nat): nat
    requires WellFormed(s) && m <= |s.views|
  {
    if m == 0 then 0 else AllAccesses(s, m - 1) + s.workers[m - 1].accessCount
  }

  /** Bytes of the slots that enter the traffic totals, over the first `m`. */
  function TrafficBytes(s: Snapshot, m: nat): nat
    requires WellFormed(s) && m <= |s.views|
  {
    if m == 0 then 0
    else TrafficBytes(s, m - 1) + (if CountsTraffic(s, m - 1) then s.workers[m - 1].bytesServed else 0)
  }

  /** The total average: the integer mean of the averages that enter it, or
      zero when none does. */
  function MeanAvg(s: Snapshot): int
    requires WellFormed(s)
  {
    var n := AvgCount(s, |s.views|);
    if n > 0 then AvgSum(s, |s.views|) / n else 0
  }

  /** Position read from the sorted percentiles: `(unsigned long)(n * 0.9)`,
      which is `floor(9 * n / 10)` for every count a table can hold. */
  function PercentilePos(n: nat): (pos: nat)
    ensures n > 0 ==> pos < n
  {
    (9 * n) / 10
  }

  /** The global estimate: the collected percentile at 90% of their number in
      ascending order, or zero when nothing was collected. */
  function GlobalPercentile(c: seq<int>): int {
    if |c| == 0 then 0 else Sort(c)[PercentilePos(|c|)]
  }

  /** The snapshot in which slot `k`'s counters have recorded one more
      request; its average and estimate are left as they were. */
  function WithRecorded(s: Snapshot, k: nat, status: int, bytes: nat, elapsed: int): (s': Snapshot)
    requires WellFormed(s) && k < |s.views|
    ensures WellFormed(s') && |s'.views| == |s.views|
  {
    var v := s.views[k];
    s.(views := s.views[k := v.(counters := Recorded(v.counters, status, bytes, elapsed))])
  }

  lemma {:induction false} ColumnsReplace(s: Snapshot, s': Snapshot, k: nat, m: nat, f: nat)
    requires WellFormed(s) && WellFormed(s') && |s'.views| == |s.views|
    requires k < |s.views| && m <= |s.views| && f < NumCounters
    requires forall i :: 0 <= i < |s.views| && i != k ==> s'.views[i].counters == s.views[i].counters
    ensures k < m ==> Columns(s', m)[f] + s.views[k].counters[f] == Columns(s, m)[f] + s'.views[k].counters[f]
    ensures m <= k ==> Columns(s', m)[f] == Columns(s, m)[f]
  {
    if m > 0 {
      ColumnsReplace(s, s', k, m - 1, f);
    }
  }

  /** Every request a slot records reaches the report exactly once: after
      `runtime_statistique` records a request in slot `k`, the summed request
      counter of its status bucket and the summed counter of its time bucket
      are one higher, the summed byte counter of its status bucket is `bytes`
      higher, and no other total moves. */
  lemma RecordedRequestReported(s: Snapshot, k: nat, status: int, bytes: nat, elapsed: int)
    requires WellFormed(s) && k < |s.views|
    ensures var before, after := Columns(s, |s.views|), Columns(WithRecorded(s, k, status, bytes, elapsed), |s.views|);
      var c, b := StatusClassOf(status), HistogramBucket(elapsed);
      && after[ReqsField(c)] == before[ReqsField(c)] + 1
      && after[BytesField(c)] == before[BytesField(c)] + bytes
      && after[HistField(b)] == before[HistField(b)] + 1
      && forall f :: 0 <= f < NumCounters && f != ReqsField(c) && f != BytesField(c) && f != HistField(b) ==>
           after[f] == before[f]
  {
    var s' := WithRecorded(s, k, status, bytes, elapsed);
    var n := |s.views|;
    forall f | 0 <= f < NumCounters
      ensures Columns(s', n)[f] + s.views[k].counters[f] == Columns(s, n)[f] + s'.views[k].counters[f]
    {
      ColumnsReplace(s, s', k, n, f);
    }
  }

  lemma {:induction false} AvgSumBounds(s: Snapshot, m: nat, lo: nat, hi: nat)
    requires WellFormed(s) && m <= |s.views|
    requires forall k :: 0 <= k < |s.views| && Averages(s, k) ==> lo <= s.views[k].avg <= hi
    ensures AvgCount(s, m) * lo <= AvgSum(s, m) <= AvgCount(s, m) * hi
  {
    if m > 0 {
      AvgSumBounds(s, m - 1, lo, hi);
      MulStep(AvgCount(s, m - 1), lo);
      MulStep(AvgCount(s, m - 1), hi);
    }
  }

  lemma MulCancel(a: nat, b: nat, n: nat)
    requires a * n < b * n
    ensures a < b
  {
    if b <= a {
      MulMonotone(b, a, n);
    }
  }

  lemma DivBetween(sum: nat, n: nat, lo: nat, hi: nat)
    requires 0 < n && n * lo <= sum <= n * hi
    ensures lo <= sum / n <= hi
  {
    var q := sum / n;
    MulStep(q, n);
    MulCancel(lo, q + 1, n);
    MulCancel(q, hi + 1, n);
    MulStep(hi, n);
  }

  /** The total average stays within the range of the per-slot averages that
      enter it, and is zero when none enters. */
  lemma MeanAvgWithinRange(s: Snapshot, lo: nat, hi: nat)
    requires WellFormed(s)
    requires forall k :: 0 <= k < |s.views| && Averages(s, k) ==> lo <= s.views[k].avg <= hi
    ensures AvgCount(s, |s.views|) == 0 ==> MeanAvg(s) == 0
    ensures AvgCount(s, |s.views|) > 0 ==> lo <= MeanAvg(s) <= hi
  {
    var n := AvgCount(s, |s.views|);
    if n > 0 {
      AvgSumBounds(s, |s.views|, lo, hi);
      DivBetween(AvgSum(s, |s.views|), n, lo, hi);
    }
  }

  /** The global estimate is a 90th percentile of the collected per-slot
      estimates: at most `floor(9n/10)` of them lie below it and more than that
      are at most it, so at least 90% are at most it and at most 90% below it.
      It is one of them, hence positive, and it is zero exactly when nothing was
      collected. */
  lemma GlobalPercentileRank(c: seq<int>)
    requires forall i :: 0 <= i < |c| ==> c[i] > 0
    ensures GlobalPercentile(c) == 0 <==> |c| == 0
    ensures |c| > 0 ==>
      && GlobalPercentile(c) in c
      && CountBelow(c, GlobalPercentile(c), true) <= PercentilePos(|c|)
      && CountBelow(c, GlobalPercentile(c), false) >= PercentilePos(|c|) + 1
      && 10 * CountBelow(c, GlobalPercentile(c), true) <= 9 * |c|
      && 10 * CountBelow(c, GlobalPercentile(c), false) >= 9 * |c|
  {
    if |c| > 0 {
      var pos := PercentilePos(|c|);
      OrderStatistic(c, pos);
      SortCorrect(c);
      assert Sort(c)[pos] in multiset(c);
    }
  }

  lemma {:induction false} WorkerCountsBounded(s: Snapshot, m: nat)
    requires WellFormed(s) && m <= |s.views|
    ensures ReadyCount(s, m) + BusyCount(s, m) <= m
  {
    if m > 0 {
      WorkerCountsBounded(s, m - 1);
    }
  }

  /** The access total drops nothing: a worker left out of the traffic totals
      has served no request. */
  lemma {:induction false} AccessesCountEveryWorker(s: Snapshot, m: nat)
    requires WellFormed(s) && m <= |s.views|
    ensures Accesses(s, m) == AllAccesses(s, m)
  {
    if m > 0 {
      AccessesCountEveryWorker(s, m - 1);
    }
  }

  /** The counter vector of every slot, in slot order. */
  function Vectors(s: Snapshot): (vs: seq<seq<nat>>)
    ensures |vs| == |s.views|
  {
    seq(|s.views|, k requires 0 <= k < |s.views| => s.views[k].counters)
  }

  /** Field `f` of a counter vector. */
  function FieldOf(f: nat): seq<nat> -> nat {
    v => if f < |v| then v[f] else 0
  }

  lemma {:induction false} ColumnsAsSum(s: Snapshot, m: nat, f: nat)
    requires WellFormed(s) && m <= |s.views| && f < NumCounters
    ensures Columns(s, m)[f] == SumOf(Vectors(s)[..m], FieldOf(f))
  {
    if m > 0 {
      ColumnsAsSum(s, m - 1, f);
      assert Vectors(s)[..m][..m - 1] == Vectors(s)[..m - 1];
    }
  }

  /** The summed counters do not depend on the order in which the slots are
      scanned: two snapshots whose slots hold the same counter vectors, in any
      order, report the same 35 totals. */
  lemma ColumnsPermute(s: Snapshot, s': Snapshot)
    requires WellFormed(s) && WellFormed(s')
    requires multiset(Vectors(s)) == multiset(Vectors(s'))
    ensures Columns(s, |s.views|) == Columns(s', |s'.views|)
  {
    forall f | 0 <= f < NumCounters
      ensures Columns(s, |s.views|)[f] == Columns(s', |s'.views|)[f]
    {
      ColumnsAsSum(s, |s.views|, f);
      ColumnsAsSum(s', |s'.views|, f);
      assert Vectors(s)[..|s.views|] == Vectors(s);
      assert Vectors(s')[..|s'.views|] == Vectors(s');
      SumOfPermute(Vectors(s), Vectors(s'), FieldOf(f));
    }
  }

  /** What the average reads of every slot: its view and its worker's state. */
  function Entries(s: Snapshot): (es: seq<(SlotView, WorkerState)>)
    requires WellFormed(s)
    ensures |es| == |s.views|
  {
    seq(|s.views|, k requires 0 <= k < |s.views| => (s.views[k], s.workers[k].state))
  }

  /** The contribution of one slot to the sum and to the count of averages. */
  function AvgTerm(e: (SlotView, WorkerState)): nat {
    if e.1 != Dead && e.1 != Ready && e.0.avg > 0 then e.0.avg else 0
  }

  function AvgHit(e: (SlotView, WorkerState)): nat {
    if e.1 != Dead && e.1 != Ready && e.0.avg > 0 then 1 else 0
  }

  lemma {:induction false} AvgAsSum(s: Snapshot, m: nat)
    requires WellFormed(s) && m <= |s.views|
    ensures AvgSum(s, m) == SumOf(Entries(s)[..m], AvgTerm)
    ensures AvgCount(s, m) == SumOf(Entries(s)[..m], AvgHit)
  {
    if m > 0 {
      AvgAsSum(s, m - 1);
      assert Entries(s)[..m][..m - 1] == Entries(s)[..m - 1];
    }
  }

  /** The total average does not depend on the order in which the slots are
      scanned either. */
  lemma MeanAvgPermute(s: Snapshot, s': Snapshot)
    requires WellFormed(s) && WellFormed(s')
    requires multiset(Entries(s)) == multiset(Entries(s'))
    ensures AvgSum(s, |s.views|) == AvgSum(s', |s'.views|)
    ensures AvgCount(s, |s.views|) == AvgCount(s', |s'.views|)
    ensures MeanAvg(s) == MeanAvg(s')
  {
    AvgAsSum(s, |s.views|);
    AvgAsSum(s', |s'.views|);
    assert Entries(s)[..|s.views|] == Entries(s);
    assert Entries(s')[..|s'.views|] == Entries(s');
    SumOfPermute(Entries(s), Entries(s'), AvgTerm);
    SumOfPermute(Entries(s), Entries(s'), AvgHit);
  }

  /** The figures the report prints. `bcount` is the byte remainder below one
      kilobyte that is not printed. */
  datatype Totals = Totals(
    counters: seq<nat>,
    avg: int,
    percentil: int,
    ready: nat,
    busy: nat,
    count: nat,
    kbcount: nat,
    bcount: nat)

  /** The running sums after the first `m` slots. */
  datatype Running = Running(
    counters: seq<nat>,
    avgSum: int,
    nbAvg: nat,
    nbPercentil: nat,
    ready: nat,
    busy: nat,
    count: nat,
    kbcount: nat,
    bcount: nat)

  /** `r` holds the sums over the first `m` slots; the traffic bytes are kept as
      whole kilobytes plus a remainder below one kilobyte. */
  ghost predicate Summarises(s: Snapshot, m: nat, r: Running)
    requires WellFormed(s) && m <= |s.views|
  {
    && |r.counters| == NumCounters
    && r.counters == Columns(s, m)
    && r.avgSum == AvgSum(s, m) && r.nbAvg == AvgCount(s, m)
    && r.nbPercentil == |Collected(s, m)|
    && r.ready == ReadyCount(s, m) && r.busy == BusyCount(s, m)
    && r.count == Accesses(s, m)
    && r.kbcount * 1024 + r.bcount == TrafficBytes(s, m) && r.bcount < 1024
  }

  /** `pa` holds the collected percentiles, then zeros. */
  ghost predicate Gathered(s: Snapshot, m: nat, nb: nat, pa: array<int>)
    requires WellFormed(s) && m <= |s.views|
    reads pa
  {
    && pa.Length == |s.views|
    && nb == |Collected(s, m)|
    && pa[..nb] == Collected(s, m)
    && forall k :: nb <= k < pa.Length ==> pa[k] == 0
  }

  function SnapshotOf(table: SlotTable, workers: seq<WorkerScore>, procs: seq<ProcessScore>, generation: int): Snapshot
    reads table, table.slots
  {
    Snapshot(table.Views(), workers, procs, table.threadLimit, generation)
  }

  lemma SnapshotWellFormed(table: SlotTable, workers: seq<WorkerScore>, procs: seq<ProcessScore>, generation: int)
    requires table.Valid()
    requires |procs| == table.serverLimit && |workers| == |table.slots|
    ensures WellFormed(SnapshotOf(table, workers, procs, generation))
  {
    var s := SnapshotOf(table, workers, procs, generation);
    forall k | 0 <= k < |s.views| ensures |s.views[k].counters| == NumCounters {
      assert table.slots[k].Valid();
    }
  }

  /** The body of the inner loop (mod_status_text.c:421-543) for slot `m`,
      whose process entry is `ps`. */
  method CollectSlot(ghost s: Snapshot, m: nat, view: SlotView, ws: WorkerScore, ps: ProcessScore, generation: int,
                     r: Running, pa: array<int>)
    returns (r': Running)
    requires WellFormed(s) && m < |s.views|
    requires view == s.views[m] && ws == s.workers[m] && ps == ProcessOf(s, m) && generation == s.generation
    requires Summarises(s, m, r) && Gathered(s, m, r.nbPercentil, pa)
    modifies pa
    ensures Summarises(s, m + 1, r') && Gathered(s, m + 1, r'.nbPercentil, pa)
  {
    var counters := AddCounters(r.counters, view.counters);
    var res := ws.state;
    var avgSum, nbAvg := r.avgSum, r.nbAvg;
    if res != Dead && res != Ready && view.avg > 0 {
      avgSum := avgSum + view.avg;
      nbAvg := nbAvg + 1;
    }
    var nbPercentil := r.nbPercentil;
    if res != Dead && view.percentil > 0 {
      pa[nbPercentil] := view.percentil;
      nbPercentil := nbPercentil + 1;
    }
    var ready, busy := r.ready, r.busy;
    if !ps.quiescing && ps.pid != 0 {
      if res == Ready && ps.generation == generation {
        ready := ready + 1;
      } else if res != Dead && res != Starting && res != IdleKill {
        busy := busy + 1;
      }
    }
    var count, bcount, kbcount := r.count, r.bcount, r.kbcount;
    var lres, bytes := ws.accessCount, ws.bytesServed;
    if lres != 0 || (res != Ready && res != Dead) {
      count := count + lres;
      bcount := bcount + bytes;
      if bcount >= 1024 {
        // `bcount >> 10` and `bcount & 0x3ff`
        kbcount := kbcount + bcount / 1024;
        bcount := bcount % 1024;
      }
    }
    r' := Running(counters, avgSum, nbAvg, nbPercentil, ready, busy, count, kbcount, bcount);
    assert pa[..nbPercentil] == Collected(s, m + 1);
  }

  /** The slots of process `i` are the `threadLimit` consecutive ones from
      `i * threadLimit`, and all of them lie in the table. */
  lemma ProcessSlots(s: Snapshot, i: nat, first: nat)
    requires WellFormed(s) && i < |s.procs| && first == i * s.threadLimit
    ensures first + s.threadLimit <= |s.views|
    ensures forall k :: first <= k < first + s.threadLimit ==> ProcessOf(s, k) == s.procs[i]
  {
    MulMonotone(i + 1, |s.procs|, s.threadLimit);
    MulStep(i, s.threadLimit);
    forall k | first <= k < first + s.threadLimit ensures ProcessOf(s, k) == s.procs[i] {
      SlotOwnerOfIndex(i, k - first, |s.procs|, s.threadLimit);
    }
  }

  /** The inner loop over the threads of process `i` (mod_status_text.c:419-544),
      whose slots start at `first`. */
  method CollectProcess(views: seq<SlotView>, workers: seq<WorkerScore>, ghost s: Snapshot, i: nat, first: nat,
                        threadLimit: nat, ps: ProcessScore, generation: int, r: Running, pa: array<int>)
    returns (r': Running, next: nat)
    requires WellFormed(s) && s.views == views && s.workers == workers
    requires threadLimit == s.threadLimit && generation == s.generation
    requires i < |s.procs| && ps == s.procs[i] && first == i * threadLimit
    requires Summarises(s, first, r) && Gathered(s, first, r.nbPercentil, pa)
    modifies pa
    ensures next == first + threadLimit <= |s.views|
    ensures Summarises(s, next, r') && Gathered(s, next, r'.nbPercentil, pa)
  {
    ProcessSlots(s, i, first);
    r' := r;
    var j := 0;
    while j < threadLimit
      invariant 0 <= j <= threadLimit
      invariant Summarises(s, first + j, r') && Gathered(s, first + j, r'.nbPercentil, pa)
    {
      var indx := first + j;
      r' := CollectSlot(s, indx, views[indx], workers[indx], ps, generation, r', pa);
      j := j + 1;
      assert first + j == indx + 1;
    }
    next := first + j;
  }

  /** After the pass (mod_status_text.c:556-572): the mean of the averages,
      the in-place sort of the collected percentiles and the pick at 90%. */
  method Conclude(ghost s: Snapshot, r: Running, pa: array<int>) returns (t: Totals, percentiles: seq<int>)
    requires WellFormed(s) && 0 < |s.views|
    requires Summarises(s, |s.views|, r) && Gathered(s, |s.views|, r.nbPercentil, pa)
    modifies pa
    ensures t.counters == Columns(s, |s.views|)
    ensures t.avg == MeanAvg(s)
    ensures t.ready == ReadyCount(s, |s.views|) && t.busy == BusyCount(s, |s.views|)
    ensures t.count == Accesses(s, |s.views|)
    ensures t.kbcount * 1024 + t.bcount == TrafficBytes(s, |s.views|) && t.bcount < 1024
    ensures var c := Collected(s, |s.views|);
      && |percentiles| == |s.views|
      && percentiles[..|c|] == Sort(c)
      && (forall k :: |c| <= k < |percentiles| ==> percentiles[k] == 0)
      && t.percentil == GlobalPercentile(c)
  {
    ghost var c := Collected(s, |s.views|);
    var avg := r.avgSum;
    if r.nbAvg > 0 {
      avg := avg / r.nbAvg;
    }
    InsertionSort(pa, r.nbPercentil);
    assert pa[..|c|] == Sort(c);
    var pos := PercentilePos(r.nbPercentil);
    assert pa[pos] == GlobalPercentile(c) by {
      if |c| > 0 {
        assert pa[pos] == pa[..|c|][pos];
      }
    }
    t := Totals(r.counters, avg, pa[pos], r.ready, r.busy, r.count, r.kbcount, r.bcount);
    percentiles := pa[..];
  }

  /** The two nested loops of the handler (mod_status_text.c:412-553) and the
      conclusion, over the slots, worker entries and process entries read. */
  method Tally(views: seq<SlotView>, workers: seq<WorkerScore>, procs: seq<ProcessScore>,
               serverLimit: nat, threadLimit: nat, generation: int)
    returns (t: Totals, percentiles: seq<int>)
    requires |procs| == serverLimit && 0 < serverLimit
    requires WellFormed(Snapshot(views, workers, procs, threadLimit, generation))
    ensures var s := Snapshot(views, workers, procs, threadLimit, generation);
      && t.counters == Columns(s, |s.views|)
      && t.avg == MeanAvg(s)
      && t.ready == ReadyCount(s, |s.views|) && t.busy == BusyCount(s, |s.views|)
      && t.count == Accesses(s, |s.views|)
      && t.kbcount * 1024 + t.bcount == TrafficBytes(s, |s.views|) && t.bcount < 1024
      && t.kbcount == TrafficBytes(s, |s.views|) / 1024
    ensures var c := Collected(Snapshot(views, workers, procs, threadLimit, generation), |views|);
      && |percentiles| == |views|
      && percentiles[..|c|] == Sort(c)
      && (forall k :: |c| <= k < |percentiles| ==> percentiles[k] == 0)
      && t.percentil == GlobalPercentile(c)
  {
    ghost var s := Snapshot(views, workers, procs, threadLimit, generation);
    MulMonotone(1, serverLimit, threadLimit);
    var r := Running(seq(NumCounters, _ => 0), 0, 0, 0, 0, 0, 0, 0, 0);
    var pa := new int[serverLimit * threadLimit](_ => 0);
    var i, first := 0, 0;
    while i < serverLimit
      invariant 0 <= i <= serverLimit && first == i * threadLimit
      invariant Summarises(s, first, r) && Gathered(s, first, r.nbPercentil, pa)
    {
      MulStep(i, threadLimit);
      r, first := CollectProcess(views, workers, s, i, first, threadLimit, procs[i], generation, r, pa);
      i := i + 1;
    }
    assert first == |views|;
    t, percentiles := Conclude(s, r, pa);
  }

  /** The status handler's pass over the table (mod_status_text.c:412-572):
      the report's totals and the sorted percentile array it prints. */
  method Aggregate(table: SlotTable, workers: seq<WorkerScore>, procs: seq<ProcessScore>, generation: int)
    returns (t: Totals, percentiles: seq<int>)
    requires table.Valid()
    requires |procs| == table.serverLimit && |workers| == |table.slots|
    ensures WellFormed(SnapshotOf(table, workers, procs, generation))
    ensures var s := SnapshotOf(table, workers, procs, generation);
      && t.counters == Columns(s, |s.views|)
      && t.avg == MeanAvg(s)
      && t.ready == ReadyCount(s, |s.views|) && t.busy == BusyCount(s, |s.views|)
      && t.count == Accesses(s, |s.views|)
      && t.kbcount * 1024 + t.bcount == TrafficBytes(s, |s.views|) && t.bcount < 1024
      && t.kbcount == TrafficBytes(s, |s.views|) / 1024
    ensures var c := Collected(SnapshotOf(table, workers, procs, generation), |table.slots|);
      && |percentiles| == |table.slots|
      && percentiles[..|c|] == Sort(c)
      && (forall k :: |c| <= k < |percentiles| ==> percentiles[k] == 0)
      && t.percentil == GlobalPercentile(c)
  {
    ghost var s := SnapshotOf(table, workers, procs, generation);
    SnapshotWellFormed(table, workers, procs, generation);
    var views := table.Views();
    t, percentiles := Tally(views, workers, procs, table.serverLimit, table.threadLimit, generation);
    assert SnapshotOf(table, workers, procs, generation) == s;
  }
}
