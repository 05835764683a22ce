/** Grouping and summing over a list of expenses: the semantics shared
    by the server's `WHERE month = ?` / `GROUP BY` / `SUM` / `COUNT`
    queries and by the dashboard's `filter` and `forEach` accumulations. */
module Aggregate {
  import opened Records
  import opened Sums

  /** The sum of all amounts (`SUM(amount)`, or `reduce` from 0). */
  function Total(xs: seq<Expense>): real
  {
    SumBy(xs, Amount)
  }

  /** The records whose `dim` column equals `k`, in their original order. */
  function Filter(xs: seq<Expense>, dim: Dimension, k: string): seq<Expense>
  {
    if xs == [] then []
    else
      var rest := Filter(xs[..|xs| - 1], dim, k);
      if Key(xs[|xs| - 1], dim) == k then rest + [xs[|xs| - 1]] else rest
  }

  lemma FilterSnoc(ys: seq<Expense>, y: Expense, dim: Dimension, k: string)
    ensures Filter(ys + [y], dim, k) == Filter(ys, dim, k) + if Key(y, dim) == k then [y] else []
  {
    assert (ys + [y])[..|ys|] == ys;
  }

  lemma {:induction false} FilterAppend(a: seq<Expense>, b: seq<Expense>, dim: Dimension, k: string)
    ensures Filter(a + b, dim, k) == Filter(a, dim, k) + Filter(b, dim, k)
    decreases |b|
  {
    if b == [] {
      assert a + b == a;
    } else {
      var b', y := b[..|b| - 1], b[|b| - 1];
      FilterAppend(a, b', dim, k);
      SplitLast(a, b);
      FilterSnoc(a + b', y, dim, k);
      FilterSnoc(b', y, dim, k);
      var fa, fb', t := Filter(a, dim, k), Filter(b', dim, k), if Key(y, dim) == k then [y] else [];
      assert Filter(a + b, dim, k) == (fa + fb') + t;
      assert Filter(b, dim, k) == fb' + t;
      assert (fa + fb') + t == fa + (fb' + t);
    }
  }

  /** A filter that every record passes keeps the whole list. */
  lemma {:induction false} FilterAllMatch(xs: seq<Expense>, dim: Dimension, k: string)
    requires forall i :: 0 <= i < |xs| ==> Key(xs[i], dim) == k
    ensures Filter(xs, dim, k) == xs
  {
    if xs != [] {
      FilterAllMatch(xs[..|xs| - 1], dim, k);
      assert xs == xs[..|xs| - 1] + [xs[|xs| - 1]];
    }
  }

  /** A filter that no record passes keeps nothing. */
  lemma {:induction false} FilterNoMatch(xs: seq<Expense>, dim: Dimension, k: string)
    requires forall i :: 0 <= i < |xs| ==> Key(xs[i], dim) != k
    ensures Filter(xs, dim, k) == []
  {
    if xs != [] {
      FilterNoMatch(xs[..|xs| - 1], dim, k);
    }
  }

  /** One more record of a prefix adds its amount to the prefix's total. */
  lemma TotalPrefix(xs: seq<Expense>, k: nat)
    requires k < |xs|
    ensures Total(xs[..k + 1]) == Total(xs[..k]) + xs[k].amount
  {
    assert xs[..k + 1][..k] == xs[..k];
  }

  function SumWhere(xs: seq<Expense>, dim: Dimension, k: string): real
  {
    Total(Filter(xs, dim, k))
  }

  function CountWhere(xs: seq<Expense>, dim: Dimension, k: string): nat
  {
    |Filter(xs, dim, k)|
  }

  /** The filter keeps every matching record as often as it occurs, and
      nothing else. */
  lemma {:induction false} FilterMultiset(xs: seq<Expense>, dim: Dimension, k: string)
    ensures forall e :: multiset(Filter(xs, dim, k))[e] ==
                        if Key(e, dim) == k then multiset(xs)[e] else 0
  {
    if xs != [] {
      var init, x := xs[..|xs| - 1], xs[|xs| - 1];
      FilterMultiset(init, dim, k);
      assert xs == init + [x];
      assert multiset(xs) == multiset(init) + multiset{x};
    }
  }

  /** `s` occurs in `t` in the same order, possibly with gaps. */
  predicate Subsequence<T(==)>(s: seq<T>, t: seq<T>)
    decreases |t|
  {
    if s == [] then true
    else if t == [] then false
    else if s[|s| - 1] == t[|t| - 1] then Subsequence(s[..|s| - 1], t[..|t| - 1])
    else Subsequence(s, t[..|t| - 1])
  }

  lemma {:induction false} SubsequenceDropLast<T>(s: seq<T>, t: seq<T>)
    requires s != [] && Subsequence(s, t)
    ensures Subsequence(s[..|s| - 1], t)
    decreases |t|, 0
  {
    var s' := s[..|s| - 1];
    if s' != [] {
      if s[|s| - 1] == t[|t| - 1] {
        SubsequenceExtend(s', t[..|t| - 1], t[|t| - 1]);
        assert t == t[..|t| - 1] + [t[|t| - 1]];
      } else {
        SubsequenceDropLast(s, t[..|t| - 1]);
        SubsequenceExtend(s', t[..|t| - 1], t[|t| - 1]);
        assert t == t[..|t| - 1] + [t[|t| - 1]];
      }
    }
  }

  lemma {:induction false} SubsequenceExtend<T>(s: seq<T>, t: seq<T>, x: T)
    requires Subsequence(s, t)
    ensures Subsequence(s, t + [x])
    decreases |t|, 1
  {
    assert (t + [x])[..|t|] == t;
    if s != [] && s[|s| - 1] == x {
      SubsequenceDropLast(s, t);
    }
  }

  lemma {:induction false} SubsequenceReflexive<T>(s: seq<T>)
    ensures Subsequence(s, s)
  {
    if s != [] {
      SubsequenceReflexive(s[..|s| - 1]);
    }
  }

  lemma {:induction false} FilterSubsequence(xs: seq<Expense>, dim: Dimension, k: string)
    ensures Subsequence(Filter(xs, dim, k), xs)
  {
    if xs != [] {
      var init, x := xs[..|xs| - 1], xs[|xs| - 1];
      FilterSubsequence(init, dim, k);
      assert xs == init + [x];
      var rest := Filter(init, dim, k);
      if Key(x, dim) == k {
        assert (rest + [x])[..|rest|] == rest;
      } else {
        SubsequenceExtend(rest, init, x);
      }
    }
  }

  predicate Distinct(ks: seq<string>)
  {
    forall i, j :: 0 <= i < j < |ks| ==> ks[i] != ks[j]
  }

  /** The distinct values of the `dim` column, in order of first appearance
      (the key order of a JavaScript object filled by a `forEach`). */
  function Keys(xs: seq<Expense>, dim: Dimension): (ks: seq<string>)
    ensures Distinct(ks)
  {
    if xs == [] then []
    else
      var ks := Keys(xs[..|xs| - 1], dim);
      var k := Key(xs[|xs| - 1], dim);
      if k in ks then ks else ks + [k]
  }

  /** A value is among the keys exactly when some record has it. */
  lemma {:induction false} KeysMembers(xs: seq<Expense>, dim: Dimension, k: string)
    ensures k in Keys(xs, dim) <==> Occurs(xs, dim, k)
  {
    if xs != [] {
      var init := xs[..|xs| - 1];
      KeysMembers(init, dim, k);
      if Occurs(init, dim, k) {
        var i :| 0 <= i < |init| && Key(init[i], dim) == k;
        assert xs[i] == init[i];
      }
      if Occurs(xs, dim, k) && Key(xs[|xs| - 1], dim) != k {
        var i :| 0 <= i < |xs| && Key(xs[i], dim) == k;
        assert init[i] == xs[i];
      }
    }
  }

  /** A record adds its key to the end of the keys when the key is new. */
  lemma KeysSnoc(xs: seq<Expense>, x: Expense, dim: Dimension)
    ensures Keys(xs + [x], dim) ==
              if Key(x, dim) in Keys(xs, dim) then Keys(xs, dim) else Keys(xs, dim) + [Key(x, dim)]
  {
    assert (xs + [x])[..|xs|] == xs;
  }

  /** The position of the first record whose `dim` column is `k`, or `|xs|`
      when there is none. */
  function FirstAt(xs: seq<Expense>, dim: Dimension, k: string): (p: nat)
    ensures p <= |xs|
    ensures p < |xs| ==> Key(xs[p], dim) == k
    ensures forall j :: 0 <= j < p ==> Key(xs[j], dim) != k
  {
    if xs == [] then 0
    else if Key(xs[0], dim) == k then 0
    else 1 + FirstAt(xs[1..], dim, k)
  }

  lemma FirstAtUnique(xs: seq<Expense>, dim: Dimension, k: string, p: nat)
    requires p < |xs| && Key(xs[p], dim) == k
    requires forall j :: 0 <= j < p ==> Key(xs[j], dim) != k
    ensures FirstAt(xs, dim, k) == p
  {
  }

  /** Appending a record does not move the first occurrence of a key that
      already occurs. */
  lemma FirstAtSnoc(xs: seq<Expense>, dim: Dimension, k: string)
    requires xs != [] && FirstAt(xs[..|xs| - 1], dim, k) < |xs| - 1
    ensures FirstAt(xs, dim, k) == FirstAt(xs[..|xs| - 1], dim, k)
  {
    var init := xs[..|xs| - 1];
    var p := FirstAt(init, dim, k);
    assert xs[p] == init[p];
    assert forall j :: 0 <= j < p ==> xs[j] == init[j];
    FirstAtUnique(xs, dim, k, p);
  }

  /** A key occurs first where it occurs, and not at all past the end. */
  lemma FirstAtOccurs(xs: seq<Expense>, dim: Dimension, k: string)
    ensures FirstAt(xs, dim, k) < |xs| <==> Occurs(xs, dim, k)
  {
  }

  /** `Keys` lists each value where it first occurs: earlier keys first
      appear earlier. */
  lemma {:induction false} KeysInFirstAppearanceOrder(xs: seq<Expense>, dim: Dimension)
    ensures forall i, j :: 0 <= i < j < |Keys(xs, dim)| ==>
              FirstAt(xs, dim, Keys(xs, dim)[i]) < FirstAt(xs, dim, Keys(xs, dim)[j]) < |xs|
  {
    if xs != [] {
      var init, k := xs[..|xs| - 1], Key(xs[|xs| - 1], dim);
      KeysInFirstAppearanceOrder(init, dim);
      var ks, ks' := Keys(init, dim), Keys(xs, dim);
      forall i | 0 <= i < |ks|
        ensures FirstAt(xs, dim, ks[i]) == FirstAt(init, dim, ks[i]) < |init|
      {
        KeysMembers(init, dim, ks[i]);
        FirstAtOccurs(init, dim, ks[i]);
        FirstAtSnoc(xs, dim, ks[i]);
      }
      if k !in ks {
        KeysMembers(init, dim, k);
        forall j | 0 <= j < |init| ensures Key(xs[j], dim) != k {
          assert xs[j] == init[j];
        }
        FirstAtUnique(xs, dim, k, |init|);
        assert ks' == ks + [k];
      }
    }
  }

  /** One group of a `GROUP BY`: the key, `SUM(amount)` and `COUNT(*)`. */
  datatype Bucket = Bucket(key: string, total: real, count: nat)

  function BucketTotal(b: Bucket): real
  {
    b.total
  }

  function BucketCount(b: Bucket): nat
  {
    b.count
  }

  /** The group of each key of `ks`, in the order of `ks`. */
  function Tally(xs: seq<Expense>, dim: Dimension, ks: seq<string>): (bs: seq<Bucket>)
    ensures |bs| == |ks|
  {
    seq(|ks|, i requires 0 <= i < |ks| =>
      Bucket(ks[i], SumWhere(xs, dim, ks[i]), CountWhere(xs, dim, ks[i])))
  }

  /** `GROUP BY dim`: one group per distinct key, in order of first appearance. */
  function Group(xs: seq<Expense>, dim: Dimension): seq<Bucket>
  {
    Tally(xs, dim, Keys(xs, dim))
  }

  lemma SumWhereSnoc(ys: seq<Expense>, x: Expense, dim: Dimension, k: string)
    ensures SumWhere(ys + [x], dim, k) == SumWhere(ys, dim, k) + (if Key(x, dim) == k then x.amount else 0.0)
    ensures CountWhere(ys + [x], dim, k) == CountWhere(ys, dim, k) + (if Key(x, dim) == k then 1 else 0)
  {
    assert (ys + [x])[..|ys|] == ys;
    if Key(x, dim) == k {
      SumBySnoc(Filter(ys, dim, k), x, Amount);
    }
  }

  /** The last key's group comes last. */
  lemma TallyLast(xs: seq<Expense>, dim: Dimension, ks: seq<string>)
    requires ks != []
    ensures var k := ks[|ks| - 1];
      Tally(xs, dim, ks) == Tally(xs, dim, ks[..|ks| - 1]) + [Bucket(k, SumWhere(xs, dim, k), CountWhere(xs, dim, k))]
  {
  }

  /** One more record adds its amount to the groups' sums exactly when
      its key is tallied. */
  lemma {:induction false} TallySnocTotal(ys: seq<Expense>, x: Expense, dim: Dimension, ks: seq<string>)
    requires Distinct(ks)
    ensures SumBy(Tally(ys + [x], dim, ks), BucketTotal) ==
            SumBy(Tally(ys, dim, ks), BucketTotal) + (if Key(x, dim) in ks then x.amount else 0.0)
  {
    if ks != [] {
      var ks', k := ks[..|ks| - 1], ks[|ks| - 1];
      assert ks == ks' + [k];
      TallySnocTotal(ys, x, dim, ks');
      var zs := ys + [x];
      var bz := Bucket(k, SumWhere(zs, dim, k), CountWhere(zs, dim, k));
      var bw := Bucket(k, SumWhere(ys, dim, k), CountWhere(ys, dim, k));
      TallyLast(zs, dim, ks);
      TallyLast(ys, dim, ks);
      SumBySnoc(Tally(zs, dim, ks'), bz, BucketTotal);
      SumBySnoc(Tally(ys, dim, ks'), bw, BucketTotal);
      SumWhereSnoc(ys, x, dim, k);
    }
  }

  /** One more record adds one to the groups' counts exactly when its key
      is tallied. */
  lemma {:induction false} TallySnocCount(ys: seq<Expense>, x: Expense, dim: Dimension, ks: seq<string>)
    requires Distinct(ks)
    ensures SumNat(Tally(ys + [x], dim, ks), BucketCount) ==
            SumNat(Tally(ys, dim, ks), BucketCount) + (if Key(x, dim) in ks then 1 else 0)
  {
    if ks != [] {
      var ks', k := ks[..|ks| - 1], ks[|ks| - 1];
      assert ks == ks' + [k];
      TallySnocCount(ys, x, dim, ks');
      var zs := ys + [x];
      var bz := Bucket(k, SumWhere(zs, dim, k), CountWhere(zs, dim, k));
      var bw := Bucket(k, SumWhere(ys, dim, k), CountWhere(ys, dim, k));
      TallyLast(zs, dim, ks);
      TallyLast(ys, dim, ks);
      SumNatSnoc(Tally(zs, dim, ks'), bz, BucketCount);
      SumNatSnoc(Tally(ys, dim, ks'), bw, BucketCount);
      SumWhereSnoc(ys, x, dim, k);
    }
  }

  /** Tallying over distinct keys that cover every record's key conserves
      both the total amount and the number of records. */
  lemma {:induction false} TallyConserves(xs: seq<Expense>, dim: Dimension, ks: seq<string>)
    requires Distinct(ks)
    requires forall i :: 0 <= i < |xs| ==> Key(xs[i], dim) in ks
    ensures SumBy(Tally(xs, dim, ks), BucketTotal) == Total(xs)
    ensures SumNat(Tally(xs, dim, ks), BucketCount) == |xs|
  {
    if xs == [] {
      forall i | 0 <= i < |ks| ensures Tally(xs, dim, ks)[i].total == 0.0 && Tally(xs, dim, ks)[i].count == 0 { }
      ZeroBuckets(Tally(xs, dim, ks));
    } else {
      var init, x := xs[..|xs| - 1], xs[|xs| - 1];
      assert xs == init + [x];
      TallyConserves(init, dim, ks);
      TallySnocTotal(init, x, dim, ks);
      TallySnocCount(init, x, dim, ks);
      SumBySnoc(init, x, Amount);
    }
  }

  lemma {:induction false} ZeroBuckets(bs: seq<Bucket>)
    requires forall i :: 0 <= i < |bs| ==> bs[i].total == 0.0 && bs[i].count == 0
    ensures SumBy(bs, BucketTotal) == 0.0 && SumNat(bs, BucketCount) == 0
  {
    if bs != [] {
      ZeroBuckets(bs[..|bs| - 1]);
    }
  }

  /** The groups' sums add up to the overall sum, and their counts to the
      number of records. */
  lemma GroupConserves(xs: seq<Expense>, dim: Dimension)
    ensures SumBy(Group(xs, dim), BucketTotal) == Total(xs)
    ensures SumNat(Group(xs, dim), BucketCount) == |xs|
  {
    var ks := Keys(xs, dim);
    forall i | 0 <= i < |xs| ensures Key(xs[i], dim) in ks {
      KeysMembers(xs, dim, Key(xs[i], dim));
    }
    TallyConserves(xs, dim, ks);
  }

  ghost predicate HasKey(bs: seq<Bucket>, k: string)
  {
    exists i :: 0 <= i < |bs| && bs[i].key == k
  }

  ghost predicate Occurs(rows: seq<Expense>, dim: Dimension, k: string)
  {
    exists i :: 0 <= i < |rows| && Key(rows[i], dim) == k
  }

  /** `bs` is a correct `GROUP BY dim` of `rows`, in some order: one group
      per distinct key present, each with that key's `SUM(amount)` and
      `COUNT(*)`, so that the groups' sums and counts add up to the whole. */
  ghost predicate Summarizes(bs: seq<Bucket>, rows: seq<Expense>, dim: Dimension)
  {
    && (forall i, j :: 0 <= i < j < |bs| ==> bs[i].key != bs[j].key)
    && (forall k :: HasKey(bs, k) <==> Occurs(rows, dim, k))
    && (forall i :: 0 <= i < |bs| ==>
          bs[i].total == SumWhere(rows, dim, bs[i].key) && bs[i].count == CountWhere(rows, dim, bs[i].key))
    && SumBy(bs, BucketTotal) == Total(rows)
    && SumNat(bs, BucketCount) == |rows|
  }

  lemma GroupSummarizes(xs: seq<Expense>, dim: Dimension)
    ensures Summarizes(Group(xs, dim), xs, dim)
  {
    var ks := Keys(xs, dim);
    var g := Group(xs, dim);
    forall k ensures HasKey(g, k) <==> Occurs(xs, dim, k) {
      KeysMembers(xs, dim, k);
      if Occurs(xs, dim, k) {
        var i :| 0 <= i < |ks| && ks[i] == k;
        assert g[i].key == k;
      }
      if HasKey(g, k) {
        var i :| 0 <= i < |g| && g[i].key == k;
        assert ks[i] in ks;
      }
    }
    GroupConserves(xs, dim);
  }

  /** With distinct keys, no bucket occurs twice. */
  lemma {:induction false} DistinctKeysOccurOnce(bs: seq<Bucket>)
    requires forall i, j :: 0 <= i < j < |bs| ==> bs[i].key != bs[j].key
    ensures forall b :: multiset(bs)[b] <= 1
  {
    if bs != [] {
      var init, b := bs[..|bs| - 1], bs[|bs| - 1];
      assert bs == init + [b];
      DistinctKeysOccurOnce(init);
      assert b !in init;
    }
  }

  lemma TwiceInMultiset<T>(s: seq<T>, i: nat, j: nat)
    requires i < j < |s| && s[i] == s[j]
    ensures multiset(s)[s[i]] >= 2
  {
    assert s == s[..j] + [s[j]] + s[j + 1..];
    assert s[i] in s[..j];
  }

  lemma ReorderedKeysStayDistinct(a: seq<Bucket>, b: seq<Bucket>)
    requires multiset(a) == multiset(b)
    requires forall i, j :: 0 <= i < j < |a| ==> a[i].key != a[j].key
    ensures forall i, j :: 0 <= i < j < |b| ==> b[i].key != b[j].key
  {
    DistinctKeysOccurOnce(a);
    forall i, j | 0 <= i < j < |b| ensures b[i].key != b[j].key {
      assert b[i] in multiset(a) && b[j] in multiset(a);
      var p :| 0 <= p < |a| && a[p] == b[i];
      var q :| 0 <= q < |a| && a[q] == b[j];
      if b[i] != b[j] {
        assert p != q;
      } else {
        TwiceInMultiset(b, i, j);
      }
    }
  }

  /** Any reordering of a correct grouping is a correct grouping. */
  lemma ReorderedSummarizes(a: seq<Bucket>, b: seq<Bucket>, rows: seq<Expense>, dim: Dimension)
    requires multiset(a) == multiset(b) && Summarizes(a, rows, dim)
    ensures Summarizes(b, rows, dim)
  {
    ReorderedKeysStayDistinct(a, b);
    forall x ensures x in a <==> x in b {
      assert x in a <==> x in multiset(a);
    }
    forall k ensures HasKey(a, k) <==> HasKey(b, k) {
      if HasKey(a, k) {
        var i :| 0 <= i < |a| && a[i].key == k;
        assert a[i] in b;
      }
      if HasKey(b, k) {
        var i :| 0 <= i < |b| && b[i].key == k;
        assert b[i] in a;
      }
    }
    forall i | 0 <= i < |b|
      ensures b[i].total == SumWhere(rows, dim, b[i].key) && b[i].count == CountWhere(rows, dim, b[i].key)
    {
      assert b[i] in a;
    }
    SumByPermutation(a, b, BucketTotal);
    SumNatPermutation(a, b, BucketCount);
  }

  /** Reordering the records changes no group's sum or count. */
  lemma SumWherePermutation(a: seq<Expense>, b: seq<Expense>, dim: Dimension, k: string)
    requires multiset(a) == multiset(b)
    ensures SumWhere(a, dim, k) == SumWhere(b, dim, k) && CountWhere(a, dim, k) == CountWhere(b, dim, k)
  {
    FilterMultiset(a, dim, k);
    FilterMultiset(b, dim, k);
    assert multiset(Filter(a, dim, k)) == multiset(Filter(b, dim, k));
    SumByPermutation(Filter(a, dim, k), Filter(b, dim, k), Amount);
    assert |multiset(Filter(a, dim, k))| == |multiset(Filter(b, dim, k))|;
  }

  /** A list without repetitions has as many elements as its set. */
  lemma {:induction false} DistinctCardinality(ks: seq<string>)
    requires Distinct(ks)
    ensures |set k | k in ks| == |ks|
  {
    if ks != [] {
      var init, k := ks[..|ks| - 1], ks[|ks| - 1];
      assert ks == init + [k];
      DistinctCardinality(init);
      assert k !in init;
      assert (set x | x in ks) == (set x | x in init) + {k};
    }
  }

  /** With every amount positive, a non-empty list has a positive total. */
  lemma {:induction false} TotalPositive(xs: seq<Expense>)
    requires xs != [] && forall i :: 0 <= i < |xs| ==> xs[i].amount > 0.0
    ensures Total(xs) > 0.0
  {
    var init, x := xs[..|xs| - 1], xs[|xs| - 1];
    assert xs == init + [x];
    SumBySnoc(init, x, Amount);
    if init != [] {
      assert forall i :: 0 <= i < |init| ==> init[i] == xs[i];
      TotalPositive(init);
    }
  }

  /** The records whose `id` differs from `id`, in their original order
      (`DELETE ... WHERE id = ?`, and the dashboard's `filter` by id). */
  function WithoutId(xs: seq<Expense>, id: int): seq<Expense>
  {
    if xs == [] then []
    else
      var rest := WithoutId(xs[..|xs| - 1], id);
      if xs[|xs| - 1].id != id then rest + [xs[|xs| - 1]] else rest
  }

  lemma WithoutIdSnoc(xs: seq<Expense>, x: Expense, id: int)
    ensures WithoutId(xs + [x], id) == WithoutId(xs, id) + if x.id != id then [x] else []
  {
    assert (xs + [x])[..|xs|] == xs;
  }

  /** Every record with another id is kept as often as it occurs, and no
      record with that id is kept. */
  lemma {:induction false} WithoutIdMultiset(xs: seq<Expense>, id: int)
    ensures forall e :: multiset(WithoutId(xs, id))[e] == if e.id != id then multiset(xs)[e] else 0
  {
    if xs != [] {
      var init, x := xs[..|xs| - 1], xs[|xs| - 1];
      WithoutIdMultiset(init, id);
      assert xs == init + [x];
      assert multiset(xs) == multiset(init) + multiset{x};
    }
  }

  /** Removing by id keeps the remaining records in their original order. */
  lemma {:induction false} WithoutIdSubsequence(xs: seq<Expense>, id: int)
    ensures Subsequence(WithoutId(xs, id), xs)
  {
    if xs != [] {
      var init, x := xs[..|xs| - 1], xs[|xs| - 1];
      WithoutIdSubsequence(init, id);
      assert xs == init + [x];
      var rest := WithoutId(init, id);
      if x.id != id {
        assert (rest + [x])[..|rest|] == rest;
      } else {
        SubsequenceExtend(rest, init, x);
      }
    }
  }

  lemma {:induction false} WithoutIdAppend(a: seq<Expense>, b: seq<Expense>, id: int)
    ensures WithoutId(a + b, id) == WithoutId(a, id) + WithoutId(b, id)
    decreases |b|
  {
    if b == [] {
      assert a + b == a;
    } else {
      var b', y := b[..|b| - 1], b[|b| - 1];
      WithoutIdAppend(a, b', id);
      SplitLast(a, b);
      WithoutIdSnoc(a + b', y, id);
      WithoutIdSnoc(b', y, id);
      var wa, wb', t := WithoutId(a, id), WithoutId(b', id), if y.id != id then [y] else [];
      assert WithoutId(a + b, id) == (wa + wb') + t;
      assert WithoutId(b, id) == wb' + t;
      assert (wa + wb') + t == wa + (wb' + t);
    }
  }

  lemma {:induction false} WithoutAbsentId(xs: seq<Expense>, id: int)
    requires forall i :: 0 <= i < |xs| ==> xs[i].id != id
    ensures WithoutId(xs, id) == xs
  {
    if xs != [] {
      WithoutAbsentId(xs[..|xs| - 1], id);
      assert xs == xs[..|xs| - 1] + [xs[|xs| - 1]];
    }
  }

  /** With unique ids, filtering out the id of position `i` removes exactly
      that one record. */
  lemma RemoveAtIsWithoutId(xs: seq<Expense>, i: nat)
    requires UniqueIds(xs) && i < |xs|
    ensures WithoutId(xs, xs[i].id) == xs[..i] + xs[i + 1..]
  {
    var id := xs[i].id;
    var before, after := xs[..i], xs[i + 1..];
    assert xs == (before + [xs[i]]) + after;
    forall j | 0 <= j < |before| ensures before[j].id != id {
      assert before[j] == xs[j];
    }
    forall j | 0 <= j < |after| ensures after[j].id != id {
      assert after[j] == xs[i + 1 + j];
    }
    WithoutAbsentId(before, id);
    WithoutAbsentId(after, id);
    WithoutIdAppend(before + [xs[i]], after, id);
    WithoutIdSnoc(before, xs[i], id);
  }
}
