/** How the dashboard's figures relate to the server's summary when the
    dashboard shows every month of the rows the server lists. */
module Consistency {
  import opened Records
  import opened Sums
  import opened Aggregate
  import opened Api
  import opened App

  /** The rows the dashboard holds after loading the unfiltered listing,
      with its filter at "All". */
  function Shown(rows: seq<Expense>): seq<Expense>
  {
    Filtered(ListExpenses(rows, None), "All")
  }

  lemma ShownIsReordered(rows: seq<Expense>)
    ensures multiset(Shown(rows)) == multiset(rows)
  {
  }

  /** The listing holds the same categories as the table. */
  lemma ShownOccurs(rows: seq<Expense>, k: string)
    ensures Occurs(Shown(rows), ByCategory, k) <==> Occurs(rows, ByCategory, k)
  {
    var shown := Shown(rows);
    ShownIsReordered(rows);
    if Occurs(shown, ByCategory, k) {
      var i :| 0 <= i < |shown| && Key(shown[i], ByCategory) == k;
      assert shown[i] in multiset(rows);
    }
    if Occurs(rows, ByCategory, k) {
      var i :| 0 <= i < |rows| && Key(rows[i], ByCategory) == k;
      assert rows[i] in multiset(shown);
    }
  }

  /** Each dashboard slice is some server group's (name, sum). */
  lemma SliceIsGroup(rows: seq<Expense>, i: nat)
    requires i < |CategoryTotals(Shown(rows))|
    ensures var c, server := CategoryTotals(Shown(rows))[i], Summarize(rows).byCategory;
      exists b :: b in server && c == CatValue(b.key, b.total)
  {
    var shown := Shown(rows);
    var client, server := CategoryTotals(shown), Summarize(rows).byCategory;
    var c := client[i];
    assert Named(client, c.name);
    ShownOccurs(rows, c.name);
    assert HasKey(server, c.name);
    var j :| 0 <= j < |server| && server[j].key == c.name;
    ShownIsReordered(rows);
    SumWherePermutation(shown, rows, ByCategory, c.name);
    assert server[j] in server;
  }

  /** Each server group's (name, sum) is a dashboard slice. */
  lemma GroupIsSlice(rows: seq<Expense>, j: nat)
    requires j < |Summarize(rows).byCategory|
    ensures var b, client := Summarize(rows).byCategory[j], CategoryTotals(Shown(rows));
      CatValue(b.key, b.total) in client
  {
    var shown := Shown(rows);
    var client, server := CategoryTotals(shown), Summarize(rows).byCategory;
    var b := server[j];
    assert HasKey(server, b.key);
    ShownOccurs(rows, b.key);
    assert Named(client, b.key);
    var i :| 0 <= i < |client| && client[i].name == b.key;
    ShownIsReordered(rows);
    SumWherePermutation(shown, rows, ByCategory, b.key);
    assert client[i] == CatValue(b.key, b.total);
  }

  /** The dashboard's category slices are the server's category groups,
      as (name, sum) pairs, as many of them, in a possibly different
      order. */
  lemma CategoriesAgree(rows: seq<Expense>)
    ensures var client, server := CategoryTotals(Shown(rows)), Summarize(rows).byCategory;
      && |client| == |server|
      && forall c :: c in client <==> exists b :: b in server && c == CatValue(b.key, b.total)
  {
    var client, server := CategoryTotals(Shown(rows)), Summarize(rows).byCategory;
    forall i | 0 <= i < |client| ensures exists b :: b in server && client[i] == CatValue(b.key, b.total) {
      SliceIsGroup(rows, i);
    }
    forall j | 0 <= j < |server| ensures CatValue(server[j].key, server[j].total) in client {
      GroupIsSlice(rows, j);
    }
    SameSlices(client, server);
    SameNamesSameLength(client, server);
  }

  /** When each entry of either list matches an entry of the other, the
      lists hold the same (name, sum) pairs. */
  lemma SameSlices(client: seq<CatValue>, server: seq<Bucket>)
    requires forall i :: 0 <= i < |client| ==> exists b :: b in server && client[i] == CatValue(b.key, b.total)
    requires forall j :: 0 <= j < |server| ==> CatValue(server[j].key, server[j].total) in client
    ensures forall c :: c in client <==> exists b :: b in server && c == CatValue(b.key, b.total)
  {
    forall c ensures c in client <==> exists b :: b in server && c == CatValue(b.key, b.total) {
      if c in client {
        var i :| 0 <= i < |client| && client[i] == c;
      }
      if exists b :: b in server && c == CatValue(b.key, b.total) {
        var b :| b in server && c == CatValue(b.key, b.total);
        var j :| 0 <= j < |server| && server[j] == b;
      }
    }
  }

  /** Two lists of distinct values holding the same values are equally long. */
  lemma SameKeysSameLength(names: seq<string>, keys: seq<string>)
    requires Distinct(names) && Distinct(keys)
    requires forall k :: k in names <==> k in keys
    ensures |names| == |keys|
  {
    DistinctCardinality(names);
    DistinctCardinality(keys);
    assert (set k | k in names) == (set k | k in keys);
  }

  /** Two lists with distinct names, each of whose entries matches an
      entry of the other, are equally long. */
  lemma SameNamesSameLength(client: seq<CatValue>, server: seq<Bucket>)
    requires forall i, j :: 0 <= i < j < |client| ==> client[i].name != client[j].name
    requires forall i, j :: 0 <= i < j < |server| ==> server[i].key != server[j].key
    requires forall i :: 0 <= i < |client| ==> exists b :: b in server && client[i] == CatValue(b.key, b.total)
    requires forall j :: 0 <= j < |server| ==> CatValue(server[j].key, server[j].total) in client
    ensures |client| == |server|
  {
    var names := seq(|client|, i requires 0 <= i < |client| => client[i].name);
    var keys := seq(|server|, i requires 0 <= i < |server| => server[i].key);
    forall k ensures k in names <==> k in keys {
      if k in names {
        var i :| 0 <= i < |names| && names[i] == k;
        var b :| b in server && client[i] == CatValue(b.key, b.total);
        var j :| 0 <= j < |server| && server[j] == b;
        assert keys[j] == k;
      }
      if k in keys {
        var j :| 0 <= j < |keys| && keys[j] == k;
        var i :| 0 <= i < |client| && client[i] == CatValue(server[j].key, server[j].total);
        assert names[i] == k;
      }
    }
    SameKeysSameLength(names, keys);
  }

  /** "Total Spent" and "Transactions" under "All" are the server's
      overall sum and count. */
  lemma OverallAgrees(rows: seq<Expense>)
    ensures |Shown(rows)| == Summarize(rows).overall.count
    ensures rows != [] ==> Summarize(rows).overall.total == Some(TotalSpend(Shown(rows)))
    ensures rows == [] ==> Summarize(rows).overall.total == None && TotalSpend(Shown(rows)) == 0.0
  {
    var shown := Shown(rows);
    ShownIsReordered(rows);
    assert |shown| == |multiset(shown)| == |multiset(rows)|;
    SumByPermutation(shown, rows, Amount);
  }
}
