/** Sums over a sequence of per-slot contributions. The handler's totals are
    such sums taken in slot order; the order does not matter, because a sum
    depends only on the multiset of the elements summed. */
module Reduction {

  /** Sum of `c(x)` over the elements `x` of `xs`, last element added last. */
  function SumOf<T>(xs: seq<T>, c: T -> nat): nat {
    if |xs| == 0 then 0 else SumOf(xs[..|xs| - 1], c) + c(xs[|xs| - 1])
  }

  lemma {:induction false} SumOfAppend<T>(a: seq<T>, b: seq<T>, c: T -> nat)
    ensures SumOf(a + b, c) == SumOf(a, c) + SumOf(b, c)
    decreases |b|
  {
    if |b| > 0 {
      assert (a + b)[..|a + b| - 1] == a + b[..|b| - 1];
      SumOfAppend(a, b[..|b| - 1], c);
    } else {
      assert a + b == a;
    }
  }

  /** Removing the element at `j` takes its contribution off the sum. */
  lemma SumOfRemove<T>(b: seq<T>, j: nat, c: T -> nat)
    requires j < |b|
    ensures SumOf(b, c) == SumOf(b[..j] + b[j + 1..], c) + c(b[j])
  {
    var p, x, q := b[..j], b[j], b[j + 1..];
    assert b == p + ([x] + q);
    assert SumOf([x], c) == c(x) by {
      assert [x][..0] == [];
    }
    SumOfAppend([x], q, c);
    SumOfAppend(p, [x] + q, c);
    SumOfAppend(p, q, c);
  }

  lemma RemoveMultiset<T>(b: seq<T>, j: nat)
    requires j < |b|
    ensures multiset(b[..j] + b[j + 1..]) == multiset(b) - multiset{b[j]}
  {
    assert b == b[..j] + [b[j]] + b[j + 1..];
  }

  /** A sum does not depend on the order of its elements. */
  lemma {:induction false} SumOfPermute<T>(a: seq<T>, b: seq<T>, c: T -> nat)
    requires multiset(a) == multiset(b)
    ensures SumOf(a, c) == SumOf(b, c)
    decreases |a|
  {
    assert |a| == |multiset(a)| == |multiset(b)| == |b|;
    if |a| > 0 {
      var n := |a| - 1;
      var x := a[n];
      assert x in multiset(b);
      var j :| 0 <= j < |b| && b[j] == x;
      var rest := b[..j] + b[j + 1..];
      RemoveMultiset(b, j);
      RemoveMultiset(a, n);
      assert a[..n] + a[n + 1..] == a[..n];
      SumOfPermute(a[..n], rest, c);
      SumOfRemove(b, j, c);
    }
  }
}
