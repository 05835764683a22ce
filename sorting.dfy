/** The two orderings the system uses: `ORDER BY date DESC` on the
    expense listing and a descending sort by a numeric rank (the server's
    `ORDER BY total DESC` and the dashboard's `sort((a, b) => b.value -
    a.value)`). Both are stable insertion sorts. */
module Sorting {
  import opened Records

  /** Lexicographic order on text, character code by character code, a
      proper prefix first: how SQLite compares TEXT under its default
      BINARY collation. */
  predicate TextLe(a: string, b: string)
  {
    a == [] || (b != [] && (a[0] < b[0] || (a[0] == b[0] && TextLe(a[1..], b[1..]))))
  }

  lemma {:induction false} TextLeTotal(a: string, b: string)
    ensures TextLe(a, b) || TextLe(b, a)
  {
    if a != [] && b != [] && a[0] == b[0] {
      TextLeTotal(a[1..], b[1..]);
    }
  }

  lemma {:induction false} TextLeTransitive(a: string, b: string, c: string)
    requires TextLe(a, b) && TextLe(b, c)
    ensures TextLe(a, c)
  {
    if a != [] && a[0] == b[0] && b[0] == c[0] {
      TextLeTransitive(a[1..], b[1..], c[1..]);
    }
  }

  /** Newest date first. */
  predicate DateDescending(xs: seq<Expense>)
  {
    forall i, j :: 0 <= i < j < |xs| ==> TextLe(xs[j].date, xs[i].date)
  }

  /** A record no older than the head of a newest-first list can go in front. */
  lemma PrependByDate(x: Expense, s: seq<Expense>)
    requires DateDescending(s) && s != [] && TextLe(s[0].date, x.date)
    ensures DateDescending([x] + s)
  {
    var r := [x] + s;
    forall i, j | 0 <= i < j < |r| ensures TextLe(r[j].date, r[i].date) {
      assert r[j] == s[j - 1];
      if i == 0 {
        if j > 1 { TextLeTransitive(s[j - 1].date, s[0].date, x.date); }
      } else {
        assert r[i] == s[i - 1];
      }
    }
  }

  /** A record no older than every record of a newest-first list can go in front. */
  lemma ConsByDate(y: Expense, t: seq<Expense>)
    requires DateDescending(t)
    requires forall j :: 0 <= j < |t| ==> TextLe(t[j].date, y.date)
    ensures DateDescending([y] + t)
  {
    var r := [y] + t;
    forall i, j | 0 <= i < j < |r| ensures TextLe(r[j].date, r[i].date) {
      assert r[j] == t[j - 1];
      if i > 0 {
        assert r[i] == t[i - 1];
      }
    }
  }

  /** Inserts `x` before the first record whose date is not later than its own. */
  function InsertByDate(x: Expense, s: seq<Expense>): (r: seq<Expense>)
    ensures multiset(r) == multiset(s) + multiset{x}
  {
    if s == [] then [x]
    else if TextLe(s[0].date, x.date) then [x] + s
    else
      assert s == [s[0]] + s[1..];
      [s[0]] + InsertByDate(x, s[1..])
  }

  /** Inserting keeps a newest-first list newest-first. */
  lemma {:induction false} InsertByDateSorted(x: Expense, s: seq<Expense>)
    requires DateDescending(s)
    ensures DateDescending(InsertByDate(x, s))
  {
    if s != [] {
      if TextLe(s[0].date, x.date) {
        PrependByDate(x, s);
      } else {
        var t := InsertByDate(x, s[1..]);
        assert DateDescending(s[1..]) by {
          forall i, j | 0 <= i < j < |s[1..]| ensures TextLe(s[1..][j].date, s[1..][i].date) {
            assert s[1..][j] == s[j + 1] && s[1..][i] == s[i + 1];
          }
        }
        InsertByDateSorted(x, s[1..]);
        assert s == [s[0]] + s[1..];
        TextLeTotal(s[0].date, x.date);
        forall j | 0 <= j < |t| ensures TextLe(t[j].date, s[0].date) {
          assert t[j] in multiset(t);
          if t[j] != x {
            assert t[j] in multiset(s[1..]);
            var k :| 0 <= k < |s[1..]| && s[1..][k] == t[j];
            assert s[k + 1] == t[j];
          }
        }
        ConsByDate(s[0], t);
      }
    }
  }

  /** `ORDER BY date DESC`: the same records, newest first. Records with
      the same date keep their relative order, which is one of the orders
      SQLite may return. */
  function SortByDate(xs: seq<Expense>): (r: seq<Expense>)
    ensures multiset(r) == multiset(xs)
    ensures DateDescending(r)
  {
    if xs == [] then []
    else
      assert xs == [xs[0]] + xs[1..];
      InsertByDateSorted(xs[0], SortByDate(xs[1..]));
      InsertByDate(xs[0], SortByDate(xs[1..]))
  }

  /** Largest rank first. */
  predicate Descending<T>(s: seq<T>, rank: T -> real)
  {
    forall i, j :: 0 <= i < j < |s| ==> rank(s[j]) <= rank(s[i])
  }

  /** An element ranked no lower than every element of a descending list
      can go in front. */
  lemma ConsDesc<T>(y: T, t: seq<T>, rank: T -> real)
    requires Descending(t, rank)
    requires forall j :: 0 <= j < |t| ==> rank(t[j]) <= rank(y)
    ensures Descending([y] + t, rank)
  {
    var r := [y] + t;
    forall i, j | 0 <= i < j < |r| ensures rank(r[j]) <= rank(r[i]) {
      assert r[j] == t[j - 1];
      if i > 0 {
        assert r[i] == t[i - 1];
      }
    }
  }

  /** Inserts `x` before the first element whose rank is not above its own,
      so that it precedes the equal-ranked elements inserted before it. */
  function InsertDesc<T>(x: T, s: seq<T>, rank: T -> real): (r: seq<T>)
    ensures multiset(r) == multiset(s) + multiset{x}
  {
    if s == [] then [x]
    else if rank(s[0]) <= rank(x) then [x] + s
    else
      assert s == [s[0]] + s[1..];
      [s[0]] + InsertDesc(x, s[1..], rank)
  }

  /** Inserting keeps a descending list descending. */
  lemma {:induction false} InsertDescSorted<T>(x: T, s: seq<T>, rank: T -> real)
    requires Descending(s, rank)
    ensures Descending(InsertDesc(x, s, rank), rank)
  {
    if s != [] {
      if rank(s[0]) <= rank(x) {
        ConsDesc(x, s, rank);
      } else {
        var t := InsertDesc(x, s[1..], rank);
        assert Descending(s[1..], rank) by {
          forall i, j | 0 <= i < j < |s[1..]| ensures rank(s[1..][j]) <= rank(s[1..][i]) {
            assert s[1..][j] == s[j + 1] && s[1..][i] == s[i + 1];
          }
        }
        InsertDescSorted(x, s[1..], rank);
        assert s == [s[0]] + s[1..];
        forall j | 0 <= j < |t| ensures rank(t[j]) <= rank(s[0]) {
          assert t[j] in multiset(t);
          if t[j] != x {
            assert t[j] in multiset(s[1..]);
            var k :| 0 <= k < |s[1..]| && s[1..][k] == t[j];
            assert s[k + 1] == t[j];
          }
        }
        ConsDesc(s[0], t, rank);
      }
    }
  }

  /** A stable descending sort by `rank`. */
  function SortDesc<T>(s: seq<T>, rank: T -> real): (r: seq<T>)
    ensures multiset(r) == multiset(s)
    ensures Descending(r, rank)
  {
    if s == [] then []
    else
      assert s == [s[0]] + s[1..];
      InsertDescSorted(s[0], SortDesc(s[1..], rank), rank);
      InsertDesc(s[0], SortDesc(s[1..], rank), rank)
  }

  /** The position of the earliest element of maximum rank: nothing
      outranks it, and everything before it ranks strictly lower. */
  function EarliestMax<T>(s: seq<T>, rank: T -> real): (i: nat)
    requires s != []
    ensures i < |s|
    ensures forall j :: 0 <= j < |s| ==> rank(s[j]) <= rank(s[i])
    ensures forall j :: 0 <= j < i ==> rank(s[j]) < rank(s[i])
  {
    if |s| == 1 then 0
    else
      var k := 1 + EarliestMax(s[1..], rank);
      assert forall j :: 1 <= j < |s| ==> s[j] == s[1..][j - 1];
      if rank(s[k]) <= rank(s[0]) then 0 else k
  }

  /** A stable descending sort puts the earliest maximum first. */
  lemma {:induction false} SortDescHead<T>(s: seq<T>, rank: T -> real)
    requires s != []
    ensures SortDesc(s, rank)[0] == s[EarliestMax(s, rank)]
  {
    var tail := s[1..];
    if tail != [] {
      SortDescHead(tail, rank);
      var sorted := SortDesc(tail, rank);
      assert SortDesc(s, rank) == InsertDesc(s[0], sorted, rank);
      assert sorted[0] == s[1 + EarliestMax(tail, rank)];
    }
  }
}
