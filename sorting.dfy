/** The insertion sort that the status module runs twice: on a slot's ten-sample
    window (mod_status_text.c:205-215) and on the collected per-slot percentiles
    (mod_status_text.c:559-569). `Sort` is its specification as a function on
    sequences; `InsertionSort` is the in-place loop, proved equal to it. */
module Sorting {

  /** Ascending order. */
  predicate Sorted(s: seq<int>) {
    forall i, j :: 0 <= i < j < |s| ==> s[i] <= s[j]
  }

  /** No element of `s` exceeds `y`. */
  predicate AllAtMost(s: seq<int>, y: int) {
    forall k :: 0 <= k < |s| ==> s[k] <= y
  }

  /** Places `x` into `t` just after the right-most element that is not greater
      than `x`, scanning from the right as the source's inner `while` does. */
  function Insert(t: seq<int>, x: int): (r: seq<int>)
    ensures |r| == |t| + 1
  {
    if |t| == 0 || t[|t| - 1] <= x then t + [x]
    else Insert(t[..|t| - 1], x) + [t[|t| - 1]]
  }

  /** Insertion sort: each element in turn is inserted into the sorted prefix
      before it. */
  function Sort(s: seq<int>): (r: seq<int>)
    ensures |r| == |s|
  {
    if |s| == 0 then [] else Insert(Sort(s[..|s| - 1]), s[|s| - 1])
  }

  lemma {:induction false} InsertMultiset(t: seq<int>, x: int)
    ensures multiset(Insert(t, x)) == multiset(t) + multiset{x}
  {
    if |t| > 0 && t[|t| - 1] > x {
      var front := t[..|t| - 1];
      assert t == front + [t[|t| - 1]];
      InsertMultiset(front, x);
    }
  }

  lemma {:induction false} InsertAtMost(t: seq<int>, x: int, y: int)
    requires AllAtMost(t, y) && x <= y
    ensures AllAtMost(Insert(t, x), y)
  {
    if |t| > 0 && t[|t| - 1] > x {
      InsertAtMost(t[..|t| - 1], x, y);
    }
  }

  lemma {:induction false} InsertSorted(t: seq<int>, x: int)
    requires Sorted(t)
    ensures Sorted(Insert(t, x))
  {
    if |t| > 0 && t[|t| - 1] > x {
      var front, top := t[..|t| - 1], t[|t| - 1];
      InsertSorted(front, x);
      InsertAtMost(front, x, top);
      var r := Insert(front, x);
      assert Insert(t, x) == r + [top];
    }
  }

  /** `Sort` yields an ascending permutation of its input. */
  lemma {:induction false} SortCorrect(s: seq<int>)
    ensures Sorted(Sort(s))
    ensures multiset(Sort(s)) == multiset(s)
  {
    if |s| > 0 {
      var front := s[..|s| - 1];
      SortCorrect(front);
      InsertSorted(Sort(front), s[|s| - 1]);
      InsertMultiset(Sort(front), s[|s| - 1]);
      assert s == front + [s[|s| - 1]];
    }
  }

  /** The last element of a sorted sequence is its largest. */
  lemma SortedLastIsMax(s: seq<int>, y: int)
    requires Sorted(s) && y in s
    ensures y <= s[|s| - 1]
  {
    var k :| 0 <= k < |s| && s[k] == y;
  }

  lemma DropLast(s: seq<int>)
    requires |s| > 0
    ensures multiset(s[..|s| - 1]) == multiset(s) - multiset{s[|s| - 1]}
  {
    assert s == s[..|s| - 1] + [s[|s| - 1]];
  }

  lemma SortedPrefix(s: seq<int>, n: nat)
    requires Sorted(s) && n <= |s|
    ensures Sorted(s[..n])
  {
  }

  /** A sorted sequence is determined by its multiset of elements. */
  lemma {:induction false} SortedUnique(a: seq<int>, b: seq<int>)
    requires Sorted(a) && Sorted(b)
    requires multiset(a) == multiset(b)
    ensures a == b
    decreases |a|
  {
    assert |a| == |multiset(a)| == |multiset(b)| == |b|;
    if |a| > 0 {
      var n := |a| - 1;
      assert a[n] == b[n] by {
        assert a[n] in multiset(b) && b[n] in multiset(a);
        SortedLastIsMax(b, a[n]);
        SortedLastIsMax(a, b[n]);
      }
      assert multiset(a[..n]) == multiset(b[..n]) by {
        DropLast(a);
        DropLast(b);
      }
      SortedPrefix(a, n);
      SortedPrefix(b, n);
      SortedUnique(a[..n], b[..n]);
      assert a == a[..n] + [a[n]] && b == b[..n] + [b[n]];
    }
  }

  /** Every ascending permutation of `s` is `Sort(s)`. */
  lemma SortIsUnique(s: seq<int>, t: seq<int>)
    requires Sorted(t) && multiset(t) == multiset(s)
    ensures t == Sort(s)
  {
    SortCorrect(s);
    SortedUnique(t, Sort(s));
  }

  /** Sorting keeps a lower bound shared by every element. */
  lemma SortKeepsLowerBound(s: seq<int>, lo: int)
    requires forall k :: 0 <= k < |s| ==> lo <= s[k]
    ensures forall k :: 0 <= k < |s| ==> lo <= Sort(s)[k]
  {
    SortCorrect(s);
    var r := Sort(s);
    forall k | 0 <= k < |r| ensures lo <= r[k] {
      assert r[k] in multiset(s);
    }
  }

  lemma InsertShift(s: seq<int>, j: int, x: int)
    requires 0 < j <= |s| && s[j - 1] > x
    ensures Insert(s[..j], x) == Insert(s[..j - 1], x) + [s[j - 1]]
  {
    assert s[..j][..j - 1] == s[..j - 1];
  }

  lemma InsertStop(s: seq<int>, j: int, x: int)
    requires 0 <= j <= |s| && (j == 0 || s[j - 1] <= x)
    ensures Insert(s[..j], x) == s[..j] + [x]
  {
  }

  lemma SortPrefixStep(o: seq<int>, i: int)
    requires 0 <= i < |o|
    ensures Sort(o[..i + 1]) == Insert(Sort(o[..i]), o[i])
  {
    assert o[..i + 1][..i] == o[..i];
  }

  /** The array after the shifts and the final store: the prefix of `s` below
      the gap, `x`, then the shifted run. */
  lemma Placed(s: seq<int>, t: seq<int>, i: nat, j: nat, x: int)
    requires j <= i < |s| == |t|
    requires forall k :: 0 <= k < j ==> t[k] == s[k]
    requires t[j] == x
    requires forall k :: j < k <= i ==> t[k] == s[k - 1]
    requires forall k :: i < k < |t| ==> t[k] == s[k]
    ensures t[..i + 1] == s[..j] + [x] + s[j..i]
    ensures t[i + 1..] == s[i + 1..]
  {
  }

  /** One pass of the outer loop: `a[i]` is shifted left past every greater
      element of `a[..i]` and dropped into the gap. */
  method ShiftInsert(a: array<int>, i: nat)
    requires i < a.Length
    modifies a
    ensures a[..i + 1] == Insert(old(a[..i]), old(a[i]))
    ensures a[i + 1..] == old(a[i + 1..])
  {
    ghost var s := a[..];
    var x := a[i];
    var j := i;
    while j > 0 && a[j - 1] > x
      invariant 0 <= j <= i
      invariant forall k :: 0 <= k < j ==> a[k] == s[k]
      invariant forall k :: j < k <= i ==> a[k] == s[k - 1]
      invariant forall k :: i < k < a.Length ==> a[k] == s[k]
      invariant Insert(s[..i], x) == Insert(s[..j], x) + s[j..i]
    {
      InsertShift(s, j, x);
      assert s[j - 1..i] == [s[j - 1]] + s[j..i];
      a[j] := a[j - 1];
      j := j - 1;
    }
    InsertStop(s, j, x);
    a[j] := x;
    Placed(s, a[..], i, j, x);
  }

  /** Insertion sort of `a[..n]` in place; the rest of `a` is untouched. */
  method InsertionSort(a: array<int>, n: nat)
    requires n <= a.Length
    modifies a
    ensures a[..n] == Sort(old(a[..n]))
    ensures a[n..] == old(a[n..])
  {
    ghost var o := a[..];
    var i := 1;
    while i < n
      invariant 1 <= i && (n > 0 ==> i <= n)
      invariant n > 0 ==> a[..i] == Sort(o[..i])
      invariant n > 0 ==> a[i..] == o[i..]
      invariant n == 0 ==> a[..] == o
    {
      ShiftInsert(a, i);
      SortPrefixStep(o, i);
      i := i + 1;
    }
    assert n > 0 ==> o[..n] == old(a[..n]);
  }
}
