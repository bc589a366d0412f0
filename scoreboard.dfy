/** The status-text table: one `SlotRecord` per (process, thread) pair, laid
    out flat as `server_limit * thread_limit` records and indexed by
    `child_num * thread_limit + thread_num` (mod_status_text.c:153, 421). */
module Scoreboard {
  import opened Counters
  import opened Recorder

  lemma MulMonotone(a: nat, b: nat, c: nat)
    requires a <= b
    ensures a * c <= b * c
  {
  }

  /** The slot of thread `thread` of process `child`. Within the limits it
      lies inside the table. */
  function SlotIndex(child: nat, thread: nat, serverLimit: nat, threadLimit: nat): (k: nat)
    requires child < serverLimit && thread < threadLimit
    ensures k < serverLimit * threadLimit
  {
    MulMonotone(child, serverLimit - 1, threadLimit);
    assert (serverLimit - 1) * threadLimit == serverLimit * threadLimit - threadLimit;
    child * threadLimit + thread
  }

  lemma MulStep(a: nat, d: nat)
    ensures (a + 1) * d == a * d + d
  {
  }

  lemma MulGap(a: nat, b: nat, d: nat)
    requires a < b
    ensures a * d + d <= b * d
  {
    MulMonotone(a + 1, b, d);
  }

  lemma QuotientUnique(q: nat, r: nat, q': nat, r': nat, d: nat)
    requires r < d && r' < d
    requires q * d + r == q' * d + r'
    ensures q == q' && r == r'
  {
    if q < q' {
      MulGap(q, q', d);
    } else if q' < q {
      MulGap(q', q, d);
    }
  }

  lemma OwnerInRange(k: nat, serverLimit: nat, threadLimit: nat)
    requires 0 < threadLimit && k < serverLimit * threadLimit
    ensures k / threadLimit < serverLimit
  {
    if k / threadLimit >= serverLimit {
      MulMonotone(serverLimit, k / threadLimit, threadLimit);
    }
  }

  /** The process and thread that own slot `k`: `SlotIndex` of the owner is
      `k` again. */
  function SlotOwner(k: nat, serverLimit: nat, threadLimit: nat): (owner: (nat, nat))
    requires 0 < threadLimit && k < serverLimit * threadLimit
    ensures owner.0 < serverLimit && owner.1 < threadLimit
    ensures SlotIndex(owner.0, owner.1, serverLimit, threadLimit) == k
  {
    OwnerInRange(k, serverLimit, threadLimit);
    (k / threadLimit, k % threadLimit)
  }

  /** Distinct workers own distinct slots: the owner of a worker's slot is
      that worker. */
  lemma SlotOwnerOfIndex(child: nat, thread: nat, serverLimit: nat, threadLimit: nat)
    requires child < serverLimit && thread < threadLimit
    ensures SlotOwner(SlotIndex(child, thread, serverLimit, threadLimit), serverLimit, threadLimit) == (child, thread)
  {
    var k := SlotIndex(child, thread, serverLimit, threadLimit);
    QuotientUnique(k / threadLimit, k % threadLimit, child, thread, threadLimit);
  }

  class SlotTable {
    const serverLimit: nat
    const threadLimit: nat
    const slots: seq<SlotRecord>
    ghost const Repr: set<object>

    ghost predicate Valid()
      reads this, Repr
    {
      && 0 < serverLimit && 0 < threadLimit
      && |slots| == serverLimit * threadLimit
      && (forall k :: 0 <= k < |slots| ==> slots[k] in Repr && slots[k].trend in Repr)
      && (forall k :: 0 <= k < |slots| ==> slots[k].Valid())
      // every worker owns its own record and its own sample window
      && (forall k, m :: 0 <= k < m < |slots| ==> slots[k] != slots[m] && slots[k].trend != slots[m].trend)
    }

    /** What the aggregation reads of every slot, in slot order. */
    function Views(): (vs: seq<SlotView>)
      reads this, slots
      ensures |vs| == |slots|
      ensures forall k :: 0 <= k < |slots| ==> vs[k] == slots[k].View()
    {
      seq(|slots|, k reads slots requires 0 <= k < |slots| => slots[k].View())
    }

    /** A table of zeroed records sized by the process and thread limits. */
    constructor (serverLimit: nat, threadLimit: nat)
      requires 0 < serverLimit && 0 < threadLimit
      ensures Valid() && fresh(Repr)
      ensures this.serverLimit == serverLimit && this.threadLimit == threadLimit
      ensures forall k :: 0 <= k < |slots| ==> slots[k].Zeroed()
    {
      this.serverLimit := serverLimit;
      this.threadLimit := threadLimit;
      var s: seq<SlotRecord> := [];
      ghost var r: set<object> := {};
      while |s| < serverLimit * threadLimit
        invariant |s| <= serverLimit * threadLimit
        invariant forall k :: 0 <= k < |s| ==> s[k] in r && s[k].trend in r
        invariant forall k :: 0 <= k < |s| ==> s[k].Valid() && s[k].Zeroed()
        invariant forall k, m :: 0 <= k < m < |s| ==> s[k] != s[m] && s[k].trend != s[m].trend
        invariant fresh(r)
      {
        var rec := new SlotRecord();
        s := s + [rec];
        r := r + {rec, rec.trend};
      }
      slots := s;
      Repr := r;
    }

    /** `runtime_statistique` as the request hook calls it: the request's own
        worker slot records it, with the elapsed time computed from the
        request's start and the current clock, and changes as `Record` says;
        no other slot changes. */
    method RecordRequest(child: nat, thread: nat, status: int, bytes: nat, requestTime: int, now: int)
      requires Valid() && child < serverLimit && thread < threadLimit
      modifies slots[SlotIndex(child, thread, serverLimit, threadLimit)]
      modifies slots[SlotIndex(child, thread, serverLimit, threadLimit)].trend
      ensures Valid()
      ensures slots[SlotIndex(child, thread, serverLimit, threadLimit)].RecordedRequest(
        status, bytes, ElapsedMillis(now, requestTime), now)
      ensures forall k :: 0 <= k < |slots| && k != SlotIndex(child, thread, serverLimit, threadLimit) ==>
        unchanged(slots[k], slots[k].trend)
    {
      var slot := slots[SlotIndex(child, thread, serverLimit, threadLimit)];
      slot.Record(status, bytes, ElapsedMillis(now, requestTime), now);
    }
  }
}
