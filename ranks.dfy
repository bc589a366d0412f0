/** Ranks: how many elements of a sequence lie below a bound, and the order
    statistic read from a sorted sequence. Both percentile estimates of the
    status module (the slot's ninth-smallest sample, mod_status_text.c:216, and
    the global 90th percentile, mod_status_text.c:571-572) are such reads. */
module Ranks {
  import opened Sorting

  /** `x` lies below `y`: strictly, or possibly equal to it. */
  predicate Under(x: int, y: int, strict: bool) {
    if strict then x < y else x <= y
  }

  /** Number of elements of `s` that lie below `y`. */
  function CountBelow(s: seq<int>, y: int, strict: bool): (c: nat)
    ensures c <= |s|
  {
    if |s| == 0 then 0
    else CountBelow(s[..|s| - 1], y, strict) + (if Under(s[|s| - 1], y, strict) then 1 else 0)
  }

  lemma {:induction false} CountBelowAppend(a: seq<int>, b: seq<int>, y: int, strict: bool)
    ensures CountBelow(a + b, y, strict) == CountBelow(a, y, strict) + CountBelow(b, y, strict)
    decreases |b|
  {
    if |b| == 0 {
      assert a + b == a;
    } else {
      assert (a + b)[..|a + b| - 1] == a + b[..|b| - 1];
      CountBelowAppend(a, b[..|b| - 1], y, strict);
    }
  }

  lemma {:induction false} CountBelowInsert(t: seq<int>, x: int, y: int, strict: bool)
    ensures CountBelow(Insert(t, x), y, strict) == CountBelow(t, y, strict) + (if Under(x, y, strict) then 1 else 0)
    decreases |t|
  {
    if |t| == 0 || t[|t| - 1] <= x {
      assert (t + [x])[..|t|] == t;
    } else {
      var front, top := t[..|t| - 1], t[|t| - 1];
      CountBelowInsert(front, x, y, strict);
      var r := Insert(front, x);
      assert (r + [top])[..|r|] == r;
    }
  }

  /** Sorting does not change how many elements lie below a bound. */
  lemma {:induction false} CountBelowSort(s: seq<int>, y: int, strict: bool)
    ensures CountBelow(Sort(s), y, strict) == CountBelow(s, y, strict)
    decreases |s|
  {
    if |s| > 0 {
      CountBelowSort(s[..|s| - 1], y, strict);
      CountBelowInsert(Sort(s[..|s| - 1]), s[|s| - 1], y, strict);
    }
  }

  lemma {:induction false} CountBelowNone(s: seq<int>, y: int, strict: bool)
    requires forall k :: 0 <= k < |s| ==> !Under(s[k], y, strict)
    ensures CountBelow(s, y, strict) == 0
    decreases |s|
  {
    if |s| > 0 {
      CountBelowNone(s[..|s| - 1], y, strict);
    }
  }

  lemma {:induction false} CountBelowEvery(s: seq<int>, y: int, strict: bool)
    requires forall k :: 0 <= k < |s| ==> Under(s[k], y, strict)
    ensures CountBelow(s, y, strict) == |s|
    decreases |s|
  {
    if |s| > 0 {
      CountBelowEvery(s[..|s| - 1], y, strict);
    }
  }

  lemma SortedFewBelow(r: seq<int>, pos: nat)
    requires Sorted(r) && pos < |r|
    ensures CountBelow(r, r[pos], true) <= pos
  {
    var below, rest := r[..pos], r[pos..];
    forall k | 0 <= k < |rest| ensures !Under(rest[k], r[pos], true) {
      assert rest[k] == r[pos + k];
    }
    CountBelowNone(rest, r[pos], true);
    assert r == below + rest;
    CountBelowAppend(below, rest, r[pos], true);
  }

  lemma SortedManyAtMost(r: seq<int>, pos: nat)
    requires Sorted(r) && pos < |r|
    ensures CountBelow(r, r[pos], false) >= pos + 1
  {
    var upTo, above := r[..pos + 1], r[pos + 1..];
    forall k | 0 <= k < |upTo| ensures Under(upTo[k], r[pos], false) {
      assert upTo[k] == r[k];
    }
    CountBelowEvery(upTo, r[pos], false);
    assert r == upTo + above;
    CountBelowAppend(upTo, above, r[pos], false);
  }

  /** The element at position `pos` of the sorted sequence is an order
      statistic of `s`: at most `pos` elements of `s` lie strictly below it and
      at least `pos + 1` are at most it. */
  lemma OrderStatistic(s: seq<int>, pos: nat)
    requires pos < |s|
    ensures CountBelow(s, Sort(s)[pos], true) <= pos
    ensures CountBelow(s, Sort(s)[pos], false) >= pos + 1
  {
    var r := Sort(s);
    assert Sorted(r) by {
      SortCorrect(s);
    }
    SortedFewBelow(r, pos);
    SortedManyAtMost(r, pos);
    CountBelowSort(s, r[pos], true);
    CountBelowSort(s, r[pos], false);
  }
}
