/** Sums of a measure over a sequence, added up from the front as a
    JavaScript `reduce` does, and the facts about them that the
    aggregations need: splitting, pointwise equality and permutation. */
module Sums {

  /** The sum of `f` over `s`. */
  function SumBy<T>(s: seq<T>, f: T -> real): real
  {
    if s == [] then 0.0 else SumBy(s[..|s| - 1], f) + f(s[|s| - 1])
  }

  /** The same, for a natural-number measure (counts). */
  function SumNat<T>(s: seq<T>, f: T -> nat): nat
  {
    if s == [] then 0 else SumNat(s[..|s| - 1], f) + f(s[|s| - 1])
  }

  /** Splitting off the last element of the right operand of `+`. */
  lemma SplitLast<T>(a: seq<T>, b: seq<T>)
    requires b != []
    ensures b == b[..|b| - 1] + [b[|b| - 1]]
    ensures a + b == (a + b[..|b| - 1]) + [b[|b| - 1]]
  {
  }

  lemma SumBySnoc<T>(s: seq<T>, x: T, f: T -> real)
    ensures SumBy(s + [x], f) == SumBy(s, f) + f(x)
  {
    assert (s + [x])[..|s|] == s;
  }

  lemma SumNatSnoc<T>(s: seq<T>, x: T, f: T -> nat)
    ensures SumNat(s + [x], f) == SumNat(s, f) + f(x)
  {
    assert (s + [x])[..|s|] == s;
  }

  lemma {:induction false} SumByAppend<T>(a: seq<T>, b: seq<T>, f: T -> real)
    ensures SumBy(a + b, f) == SumBy(a, f) + SumBy(b, f)
    decreases |b|
  {
    if b == [] {
      assert a + b == a;
    } else {
      var b' := b[..|b| - 1];
      SumByAppend(a, b', f);
      assert a + b == (a + b') + [b[|b| - 1]];
      SumBySnoc(a + b', b[|b| - 1], f);
    }
  }

  lemma {:induction false} SumNatAppend<T>(a: seq<T>, b: seq<T>, f: T -> nat)
    ensures SumNat(a + b, f) == SumNat(a, f) + SumNat(b, f)
    decreases |b|
  {
    if b == [] {
      assert a + b == a;
    } else {
      var b' := b[..|b| - 1];
      SumNatAppend(a, b', f);
      assert a + b == (a + b') + [b[|b| - 1]];
      SumNatSnoc(a + b', b[|b| - 1], f);
    }
  }

  /** Reordering a sequence does not change its sum. */
  lemma {:induction false} SumByPermutation<T>(a: seq<T>, b: seq<T>, f: T -> real)
    requires multiset(a) == multiset(b)
    ensures SumBy(a, f) == SumBy(b, f)
    decreases |a|
  {
    if a == [] {
      assert |b| == |multiset(b)| == 0;
    } else {
      var x := a[|a| - 1];
      var a' := a[..|a| - 1];
      assert a == a' + [x];
      assert x in multiset(b);
      var j :| 0 <= j < |b| && b[j] == x;
      var b' := b[..j] + b[j + 1..];
      assert b == b[..j] + [x] + b[j + 1..];
      assert multiset(b') == multiset(b) - multiset{x};
      SumByPermutation(a', b', f);
      SumByAppend(b[..j] + [x], b[j + 1..], f);
      SumBySnoc(b[..j], x, f);
      SumByAppend(b[..j], b[j + 1..], f);
    }
  }

  lemma {:induction false} SumNatPermutation<T>(a: seq<T>, b: seq<T>, f: T -> nat)
    requires multiset(a) == multiset(b)
    ensures SumNat(a, f) == SumNat(b, f)
    decreases |a|
  {
    if a == [] {
      assert |b| == |multiset(b)| == 0;
    } else {
      var x := a[|a| - 1];
      var a' := a[..|a| - 1];
      assert a == a' + [x];
      assert x in multiset(b);
      var j :| 0 <= j < |b| && b[j] == x;
      var b' := b[..j] + b[j + 1..];
      assert b == b[..j] + [x] + b[j + 1..];
      assert multiset(b') == multiset(b) - multiset{x};
      SumNatPermutation(a', b', f);
      SumNatAppend(b[..j] + [x], b[j + 1..], f);
      SumNatSnoc(b[..j], x, f);
      SumNatAppend(b[..j], b[j + 1..], f);
    }
  }

  /** Two sequences whose measures agree position by position have equal sums. */
  lemma {:induction false} SumByPointwise<T, U>(s: seq<T>, f: T -> real, t: seq<U>, g: U -> real)
    requires |s| == |t|
    requires forall i :: 0 <= i < |s| ==> f(s[i]) == g(t[i])
    ensures SumBy(s, f) == SumBy(t, g)
    decreases |s|
  {
    if s != [] {
      SumByPointwise(s[..|s| - 1], f, t[..|t| - 1], g);
    }
  }
}
