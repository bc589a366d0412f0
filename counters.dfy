/** The 35 counters of a status-text slot (mod_status_text.c:68-108) and the two
    classifications that choose which of them a finished request bumps: the
    response status class (mod_status_text.c:263-326) and the response-time
    bucket (mod_status_text.c:235-260). */
module Counters {

  /** The eleven status buckets, in the order of the slot's fields. */
  datatype StatusClass =
    | Below100    // nb_reqs_xxx
    | Class1xx    // nb_reqs_10x
    | Exact200    // nb_reqs_200
    | Other2xx    // nb_reqs_20x
    | Exact301    // nb_reqs_301
    | Exact302    // nb_reqs_302
    | Exact304    // nb_reqs_304
    | Other3xx    // nb_reqs_30x
    | Exact404    // nb_reqs_404
    | Other4xx    // nb_reqs_40x
    | Class5xx    // nb_reqs_50x

  const NumClasses := 11
  const NumBuckets := 13
  /** Eleven request counters, eleven byte counters, thirteen histogram buckets. */
  const NumCounters := 2 * NumClasses + NumBuckets

  /** Position of a status bucket among the eleven, as declared in the slot. */
  function ClassIndex(c: StatusClass): (k: nat)
    ensures k < NumClasses
  {
    match c
    case Below100 => 0
    case Class1xx => 1
    case Exact200 => 2
    case Other2xx => 3
    case Exact301 => 4
    case Exact302 => 5
    case Exact304 => 6
    case Other3xx => 7
    case Exact404 => 8
    case Other4xx => 9
    case Class5xx => 10
  }

  /** The status chain, tested from the highest class down; inside a class the
      exact codes are tested before the class's remaining bucket. Every status
      lands in exactly one bucket, given here by its range. */
  function StatusClassOf(status: int): (c: StatusClass)
    ensures c == Class5xx <==> 500 <= status
    ensures c == Exact404 <==> status == 404
    ensures c == Other4xx <==> 400 <= status < 500 && status != 404
    ensures c == Exact301 <==> status == 301
    ensures c == Exact302 <==> status == 302
    ensures c == Exact304 <==> status == 304
    ensures c == Other3xx <==> 300 <= status < 400 && status != 301 && status != 302 && status != 304
    ensures c == Exact200 <==> status == 200
    ensures c == Other2xx <==> 200 <= status < 300 && status != 200
    ensures c == Class1xx <==> 100 <= status < 200
    ensures c == Below100 <==> status < 100
  {
    if status >= 500 then Class5xx
    else if status >= 400 then (if status == 404 then Exact404 else Other4xx)
    else if status >= 300 then
      (if status == 301 then Exact301
       else if status == 302 then Exact302
       else if status == 304 then Exact304
       else Other3xx)
    else if status >= 200 then (if status == 200 then Exact200 else Other2xx)
    else if status >= 100 then Class1xx
    else Below100
  }

  /** Upper limits of the first twelve response-time buckets, in milliseconds.
      The first eleven are inclusive; the twelfth (30 s) is exclusive, as the
      source writes `< 30*1000` there and `<=` everywhere else. */
  const BucketLimits: seq<int> := [50, 100, 300, 500, 1000, 1500, 2000, 5000, 10000, 15000, 20000, 30000]

  /** Elapsed time `e` belongs to bucket `b`: above the previous limit and
      within this one. Bucket 0 has no lower limit (it takes zero and negative
      times too) and bucket 12 (`nb_reqs_xs`) no upper limit. */
  predicate InBucket(e: int, b: nat) {
    && b < NumBuckets
    && (b == 0 || (b < 12 && BucketLimits[b - 1] < e) || (b == 12 && BucketLimits[11] <= e))
    && (b == 12 || (b < 11 && e <= BucketLimits[b]) || (b == 11 && e < BucketLimits[11]))
  }

  /** The response-time chain of mod_status_text.c:235-260 (`1.5*1000` is
      exactly 1500). */
  function HistogramBucket(elapsed: int): (b: nat)
    ensures InBucket(elapsed, b)
  {
    if elapsed <= 50 then 0
    else if elapsed <= 100 then 1
    else if elapsed <= 300 then 2
    else if elapsed <= 500 then 3
    else if elapsed <= 1000 then 4
    else if elapsed <= 1500 then 5
    else if elapsed <= 2000 then 6
    else if elapsed <= 5000 then 7
    else if elapsed <= 10000 then 8
    else if elapsed <= 15000 then 9
    else if elapsed <= 20000 then 10
    else if elapsed < 30000 then 11
    else 12
  }

  /** The buckets do not overlap, so the bucket of an elapsed time is unique. */
  lemma BucketsDisjoint(e: int, b: nat, b': nat)
    requires InBucket(e, b) && InBucket(e, b')
    ensures b == b'
  {
  }

  /** Field positions of the three counter groups within the 35. */
  function ReqsField(c: StatusClass): (f: nat)
    ensures f < NumClasses
  {
    ClassIndex(c)
  }

  function BytesField(c: StatusClass): (f: nat)
    ensures NumClasses <= f < 2 * NumClasses
  {
    NumClasses + ClassIndex(c)
  }

  function HistField(b: nat): (f: nat)
    requires b < NumBuckets
    ensures 2 * NumClasses <= f < NumCounters
  {
    2 * NumClasses + b
  }

  /** The counters after one request with `status`, `bytes` sent and `elapsed`
      milliseconds: the status bucket's request counter gains one, its byte
      counter gains `bytes`, the time bucket gains one, and nothing else moves. */
  function Recorded(cs: seq<nat>, status: int, bytes: nat, elapsed: int): (r: seq<nat>)
    requires |cs| == NumCounters
    ensures |r| == NumCounters
    ensures r[ReqsField(StatusClassOf(status))] == cs[ReqsField(StatusClassOf(status))] + 1
    ensures r[BytesField(StatusClassOf(status))] == cs[BytesField(StatusClassOf(status))] + bytes
    ensures r[HistField(HistogramBucket(elapsed))] == cs[HistField(HistogramBucket(elapsed))] + 1
    ensures forall f :: (0 <= f < NumCounters && f != ReqsField(StatusClassOf(status))
                         && f != BytesField(StatusClassOf(status))
                         && f != HistField(HistogramBucket(elapsed))) ==> r[f] == cs[f]
  {
    var b, c := HistogramBucket(elapsed), StatusClassOf(status);
    cs[HistField(b) := cs[HistField(b)] + 1]
      [ReqsField(c) := cs[ReqsField(c)] + 1]
      [BytesField(c) := cs[BytesField(c)] + bytes]
  }

  /** Sum of a sequence of counters. */
  function Total(s: seq<nat>): nat {
    if |s| == 0 then 0 else Total(s[..|s| - 1]) + s[|s| - 1]
  }

  /** Changing one counter changes the sum by the same amount. */
  lemma {:induction false} TotalUpdate(s: seq<nat>, k: nat, v: nat)
    requires k < |s|
    ensures Total(s[k := v]) + s[k] == Total(s) + v
  {
    var n := |s| - 1;
    assert s[k := v][..n] == if k < n then s[..n][k := v] else s[..n];
    if k < n {
      TotalUpdate(s[..n], k, v);
    }
  }

  /** A slice of `r` that differs from the same slice of `cs` at field `f`
      alone. */
  lemma SliceUpdated(cs: seq<nat>, r: seq<nat>, lo: nat, hi: nat, f: nat)
    requires |r| == |cs| && lo <= f < hi <= |cs|
    requires forall g :: lo <= g < hi && g != f ==> r[g] == cs[g]
    ensures r[lo..hi] == cs[lo..hi][f - lo := r[f]]
    ensures Total(r[lo..hi]) + cs[f] == Total(cs[lo..hi]) + r[f]
  {
    assert r[lo..hi] == cs[lo..hi][f - lo := r[f]];
    TotalUpdate(cs[lo..hi], f - lo, r[f]);
  }

  /** Over all status buckets, one more request and `bytes` more bytes; over
      all time buckets, one more request. */
  lemma RecordedTotals(cs: seq<nat>, status: int, bytes: nat, elapsed: int)
    requires |cs| == NumCounters
    ensures var r := Recorded(cs, status, bytes, elapsed);
      && Total(r[..NumClasses]) == Total(cs[..NumClasses]) + 1
      && Total(r[NumClasses..2 * NumClasses]) == Total(cs[NumClasses..2 * NumClasses]) + bytes
      && Total(r[2 * NumClasses..]) == Total(cs[2 * NumClasses..]) + 1
  {
    var r := Recorded(cs, status, bytes, elapsed);
    var c, b := StatusClassOf(status), HistogramBucket(elapsed);
    SliceUpdated(cs, r, 0, NumClasses, ReqsField(c));
    SliceUpdated(cs, r, NumClasses, 2 * NumClasses, BytesField(c));
    SliceUpdated(cs, r, 2 * NumClasses, NumCounters, HistField(b));
    assert r[..NumClasses] == r[0..NumClasses] && cs[..NumClasses] == cs[0..NumClasses];
    assert r[2 * NumClasses..] == r[2 * NumClasses..NumCounters];
    assert cs[2 * NumClasses..] == cs[2 * NumClasses..NumCounters];
  }
}
