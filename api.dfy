/** The expense service of backend/server.js: the `expenses` table with its
    autoincrementing id, the start-up seeding, input validation, and the
    queries behind the four `/api/expenses` routes. HTTP transport is not
    modelled: a route is an operation returning its status code and its
    result. */
module Api {
  import opened Records
  import opened Sums
  import opened Aggregate
  import opened Sorting

  /** The twelve sample rows inserted into an empty table at start-up. */
  const SEED: seq<Entry> := [
    Entry("Jio", 195.0, "Bills", "January", "2026-01-05"),
    Entry("Masala Pesarattu", 30.0, "Food", "January", "2026-01-08"),
    Entry("Samosa", 30.0, "Food", "January", "2026-01-10"),
    Entry("Jilebi", 50.0, "Food", "January", "2026-01-12"),
    Entry("Moondal", 20.0, "Food", "January", "2026-01-14"),
    Entry("Panipuri", 20.0, "Food", "January", "2026-01-16"),
    Entry("Vada", 30.0, "Food", "January", "2026-01-18"),
    Entry("Masala Dosa", 30.0, "Food", "January", "2026-01-20"),
    Entry("Samosa", 40.0, "Food", "January", "2026-01-25"),
    Entry("Puri", 30.0, "Food", "January", "2026-01-28"),
    Entry("Kurkure & Ice Cream", 90.0, "Snacks", "February", "2026-02-05"),
    Entry("Samosa & Dil Kusheh", 90.0, "Food", "February", "2026-02-15")
  ]

  /** The rows the seeding stores when ids start at `start`; `clock(i)` is
      what `datetime('now')` gives the `i`-th seed insert. */
  function Seeded(start: int, clock: nat -> string): seq<Expense>
  {
    seq(|SEED|, i requires 0 <= i < |SEED| => Stored(SEED[i], start + i, clock(i)))
  }

  /** A table whose rows agree with the seed row by row holds `Seeded`. */
  lemma SeededByRow(rows: seq<Expense>, start: int, clock: nat -> string)
    requires |rows| == |SEED|
    requires forall j :: 0 <= j < |SEED| ==> rows[j] == Stored(SEED[j], start + j, clock(j))
    ensures rows == Seeded(start, clock)
  {
  }

  lemma SeedRows(start: int, clock: nat -> string)
    ensures var rows := Seeded(start, clock);
      && |rows| == 12
      && (forall i :: 0 <= i < 10 ==> rows[i].month == "January")
      && rows[10].month == "February" && rows[11].month == "February"
      && rows[10].amount == 90.0 && rows[11].amount == 90.0
  {
    var rows := Seeded(start, clock);
    forall i | 0 <= i < |SEED| ensures rows[i].month == SEED[i].month && rows[i].amount == SEED[i].amount {
      assert rows[i] == Stored(SEED[i], start + i, clock(i));
    }
  }

  lemma SeedJanuaryTotal(start: int, clock: nat -> string)
    ensures Total(Seeded(start, clock)[..10]) == 475.0
  {
    var rows := Seeded(start, clock);
    assert rows[..0] == [];
    var partial := [0.0, 195.0, 225.0, 255.0, 305.0, 325.0, 345.0, 375.0, 405.0, 445.0, 475.0];
    var k := 0;
    while k < 10
      invariant 0 <= k <= 10
      invariant Total(rows[..k]) == partial[k]
    {
      TotalPrefix(rows, k);
      assert rows[k] == Stored(SEED[k], start + k, clock(k));
      k := k + 1;
    }
  }

  /** The seeded table holds ten January rows totalling 475 and two
      February rows totalling 180: 655 over twelve rows, and no other month. */
  lemma SeedTotals(start: int, clock: nat -> string)
    ensures var rows := Seeded(start, clock);
      && Total(rows) == 655.0 && |rows| == 12
      && SumWhere(rows, ByMonth, "January") == 475.0 && CountWhere(rows, ByMonth, "January") == 10
      && SumWhere(rows, ByMonth, "February") == 180.0 && CountWhere(rows, ByMonth, "February") == 2
      && forall k :: Occurs(rows, ByMonth, k) <==> k == "January" || k == "February"
  {
    var rows := Seeded(start, clock);
    SeedRows(start, clock);
    SeedJanuaryTotal(start, clock);
    var jan, feb := rows[..10], rows[10..];
    assert rows == jan + feb;
    assert feb == [rows[10]] + [rows[11]];
    assert Total(feb) == 180.0 by {
      assert [rows[10]][..0] == [];
      SumBySnoc([rows[10]], rows[11], Amount);
    }
    SumByAppend(jan, feb, Amount);
    FilterAppend(jan, feb, ByMonth, "January");
    FilterAllMatch(jan, ByMonth, "January");
    FilterNoMatch(feb, ByMonth, "January");
    FilterAppend(jan, feb, ByMonth, "February");
    FilterNoMatch(jan, ByMonth, "February");
    FilterAllMatch(feb, ByMonth, "February");
    assert jan + [] == jan && [] + feb == feb;
    forall k ensures Occurs(rows, ByMonth, k) <==> k == "January" || k == "February" {
      if k == "January" {
        assert Key(rows[0], ByMonth) == k;
      } else if k == "February" {
        assert Key(rows[10], ByMonth) == k;
      }
    }
  }

  /** A correct `GROUP BY` of rows holding exactly two keys has exactly
      the two groups those keys' sums and counts make. */
  lemma SummarizesTwoKeys(bs: seq<Bucket>, rows: seq<Expense>, dim: Dimension, a: Bucket, b: Bucket)
    requires Summarizes(bs, rows, dim)
    requires forall k :: Occurs(rows, dim, k) <==> k == a.key || k == b.key
    requires SumWhere(rows, dim, a.key) == a.total && CountWhere(rows, dim, a.key) == a.count
    requires SumWhere(rows, dim, b.key) == b.total && CountWhere(rows, dim, b.key) == b.count
    ensures a in bs && b in bs
    ensures forall x :: x in bs ==> x == a || x == b
  {
    assert HasKey(bs, a.key) && HasKey(bs, b.key);
    forall x | x in bs ensures x == a || x == b {
      var i :| 0 <= i < |bs| && bs[i] == x;
      assert HasKey(bs, x.key);
    }
    var i :| 0 <= i < |bs| && bs[i].key == a.key;
    var j :| 0 <= j < |bs| && bs[j].key == b.key;
    assert bs[i] in bs && bs[j] in bs;
  }

  /** The summary of the freshly seeded table: overall 655 over twelve
      rows, and exactly the groups January (475, ten rows) and February
      (180, two rows). */
  lemma SeedSummary(start: int, clock: nat -> string)
    ensures var s := Summarize(Seeded(start, clock));
      && s.overall == Overall(Some(655.0), 12)
      && Bucket("January", 475.0, 10) in s.byMonth
      && Bucket("February", 180.0, 2) in s.byMonth
      && forall b :: b in s.byMonth ==> b == Bucket("January", 475.0, 10) || b == Bucket("February", 180.0, 2)
  {
    var rows := Seeded(start, clock);
    SeedTotals(start, clock);
    var s := Summarize(rows);
    assert rows != [] by { assert |rows| == 12; }
    SummarizesTwoKeys(s.byMonth, rows, ByMonth, Bucket("January", 475.0, 10), Bucket("February", 180.0, 2));
  }

  const OK := 200
  const CREATED := 201

  datatype Failure = MissingFields | InvalidAmount | NotFound

  function Status(f: Failure): int
  {
    match f
    case MissingFields => 400
    case InvalidAmount => 400
    case NotFound => 404
  }

  function Message(f: Failure): string
  {
    match f
    case MissingFields => "All fields are required"
    case InvalidAmount => "Amount must be a positive number"
    case NotFound => "Expense not found"
  }

  datatype Result<T> = Ok(value: T) | Err(failure: Failure)

  /** A POST body. A text field is a JSON string or absent; `amount` is a
      JSON number or absent (`null` reads as absent). */
  datatype Request = Request(
    description: Option<string>,
    amount: Option<real>,
    category: Option<string>,
    month: Option<string>,
    date: Option<string>)

  /** JavaScript truthiness of a text field: present and not empty. */
  predicate Given(f: Option<string>)
  {
    f.Some? && f.value != ""
  }

  /** JavaScript truthiness of a number: present and not zero. */
  predicate GivenAmount(a: Option<real>)
  {
    a.Some? && a.value != 0.0
  }

  predicate AllGiven(req: Request)
  {
    Given(req.description) && GivenAmount(req.amount) && Given(req.category)
    && Given(req.month) && Given(req.date)
  }

  /** The two validation checks of POST /api/expenses, in order. */
  function Validate(req: Request): (r: Result<Entry>)
    ensures r.Ok? <==> AllGiven(req) && req.amount.value > 0.0
    ensures r == Err(MissingFields) <==> !AllGiven(req)
    ensures r == Err(InvalidAmount) <==> AllGiven(req) && req.amount.value < 0.0
    ensures r.Ok? ==> r.value.amount > 0.0
    ensures r.Ok? ==> r.value == Entry(req.description.value, req.amount.value,
                                       req.category.value, req.month.value, req.date.value)
  {
    if !AllGiven(req) then Err(MissingFields)
    else if req.amount.value <= 0.0 then Err(InvalidAmount)
    else Ok(Entry(req.description.value, req.amount.value, req.category.value,
                  req.month.value, req.date.value))
  }

  /** Whether a `month` query parameter restricts the listing: present, not
      empty and not "All". */
  predicate RestrictsMonth(month: Option<string>)
  {
    month.Some? && month.value != "" && month.value != "All"
  }

  /** GET /api/expenses?month=...: exactly the rows of that month (or every
      row), each as often as stored, newest date first. */
  function ListExpenses(rows: seq<Expense>, month: Option<string>): (r: seq<Expense>)
    ensures forall e :: multiset(r)[e] ==
              if RestrictsMonth(month) && e.month != month.value then 0 else multiset(rows)[e]
    ensures DateDescending(r)
  {
    if RestrictsMonth(month) then
      FilterMultiset(rows, ByMonth, month.value);
      SortByDate(Filter(rows, ByMonth, month.value))
    else
      SortByDate(rows)
  }

  /** `SELECT SUM(amount), COUNT(*)`: the sum is SQL NULL on an empty table. */
  datatype Overall = Overall(total: Option<real>, count: nat)

  datatype Summary = Summary(byMonth: seq<Bucket>, byCategory: seq<Bucket>, overall: Overall)

  /** GET /api/expenses/summary. `byMonth` comes in no promised order (the
      query orders by a column that is not grouped); `byCategory` is ordered
      by total, largest first. */
  function Summarize(rows: seq<Expense>): (s: Summary)
    ensures s.overall.count == |rows|
    ensures s.overall.total == if rows == [] then None else Some(Total(rows))
    ensures Summarizes(s.byMonth, rows, ByMonth)
    ensures Summarizes(s.byCategory, rows, ByCategory)
    ensures Descending(s.byCategory, BucketTotal)
  {
    var categories := Group(rows, ByCategory);
    GroupSummarizes(rows, ByMonth);
    GroupSummarizes(rows, ByCategory);
    ReorderedSummarizes(categories, SortDesc(categories, BucketTotal), rows, ByCategory);
    Summary(
      Group(rows, ByMonth),
      SortDesc(categories, BucketTotal),
      Overall(if rows == [] then None else Some(Total(rows)), |rows|))
  }

  /** `SELECT * FROM expenses WHERE id = ?`: the position of the row with
      that id, if any. */
  function FindById(rows: seq<Expense>, id: int): (r: Option<nat>)
    ensures r.Some? ==> r.value < |rows| && rows[r.value].id == id
    ensures r.None? <==> forall i :: 0 <= i < |rows| ==> rows[i].id != id
  {
    if rows == [] then None
    else if rows[0].id == id then Some(0)
    else
      var r := FindById(rows[1..], id);
      assert forall i :: 1 <= i < |rows| ==> rows[i] == rows[1..][i - 1];
      if r.Some? then Some(r.value + 1) else None
  }

  /** Removing one row keeps the ids unique, issued and the amounts positive. */
  lemma RemoveAtKeepsRows(rows: seq<Expense>, i: nat, issued: set<int>)
    requires i < |rows| && UniqueIds(rows)
    requires forall j :: 0 <= j < |rows| ==> rows[j].id in issued && rows[j].amount > 0.0
    ensures var r := rows[..i] + rows[i + 1..];
      && |r| == |rows| - 1
      && UniqueIds(r)
      && forall j :: 0 <= j < |r| ==> r[j].id in issued && r[j].amount > 0.0
  {
    var r := rows[..i] + rows[i + 1..];
    assert forall j :: 0 <= j < |r| ==> r[j] == rows[if j < i then j else j + 1];
  }

  /** The `expenses` table. `nextId` is the next id AUTOINCREMENT hands out;
      `issued` holds every id ever handed out, including those of rows since
      deleted, so that ids are never reused. */
  class Table {
    var rows: seq<Expense>
    var nextId: int
    ghost var issued: set<int>

    ghost predicate Valid()
      reads this
    {
      && 1 <= nextId
      && (forall k :: k in issued ==> 1 <= k < nextId)
      && (forall i :: 0 <= i < |rows| ==> rows[i].id in issued && rows[i].amount > 0.0)
      && UniqueIds(rows)
    }

    /** `CREATE TABLE IF NOT EXISTS` on a fresh database. */
    constructor ()
      ensures Valid() && rows == [] && nextId == 1 && issued == {}
    {
      rows, nextId, issued := [], 1, {};
    }

    /** `INSERT INTO expenses (...) VALUES (...)`. */
    method Append(e: Entry, now: string) returns (row: Expense)
      requires Valid() && e.amount > 0.0
      modifies this
      ensures Valid()
      ensures row == Stored(e, old(nextId), now) && row.id !in old(issued)
      ensures rows == old(rows) + [row]
      ensures nextId == old(nextId) + 1 && issued == old(issued) + {row.id}
    {
      row := Stored(e, nextId, now);
      rows := rows + [row];
      issued := issued + {nextId};
      nextId := nextId + 1;
    }

    /** The start-up seeding: when the table is empty, insert the twelve
      sample rows one by one; otherwise do nothing. */
    method SeedIfEmpty(clock: nat -> string) returns (seeded: bool)
      requires Valid()
      modifies this
      ensures Valid()
      ensures seeded <==> old(rows) == []
      ensures seeded ==> rows == Seeded(old(nextId), clock) && nextId == old(nextId) + |SEED|
      ensures seeded ==> forall k :: k in issued <==> k in old(issued) || old(nextId) <= k < old(nextId) + |SEED|
      ensures !seeded ==> rows == old(rows) && nextId == old(nextId) && issued == old(issued)
    {
      seeded := |rows| == 0;
      if seeded {
        var i := 0;
        while i < |SEED|
          invariant 0 <= i <= |SEED|
          invariant Valid()
          invariant |rows| == i && nextId == old(nextId) + i
          invariant forall k :: k in issued <==> k in old(issued) || old(nextId) <= k < old(nextId) + i
          invariant forall j :: 0 <= j < i ==> rows[j] == Stored(SEED[j], old(nextId) + j, clock(j))
        {
          var _ := Append(SEED[i], clock(i));
          i := i + 1;
        }
        SeededByRow(rows, old(nextId), clock);
      }
    }

    /** POST /api/expenses: validate, then insert and return the stored row
      (status 201); a refused request leaves the table as it was. */
    method Insert(req: Request, now: string) returns (status: int, res: Result<Expense>)
      requires Valid()
      modifies this
      ensures Valid()
      ensures Validate(req).Err? ==>
                status == Status(Validate(req).failure) && res == Err(Validate(req).failure)
                && rows == old(rows) && nextId == old(nextId) && issued == old(issued)
      ensures Validate(req).Ok? ==>
                status == CREATED && res == Ok(Stored(Validate(req).value, old(nextId), now))
                && res.value.id !in old(issued)
                && rows == old(rows) + [res.value]
                && nextId == old(nextId) + 1 && issued == old(issued) + {res.value.id}
    {
      var v := Validate(req);
      if v.Err? {
        status, res := Status(v.failure), Err(v.failure);
      } else {
        var row := Append(v.value, now);
        status, res := CREATED, Ok(row);
      }
    }

    /** DELETE /api/expenses/:id: remove the row with that id (status 200),
      or report 404 and change nothing when there is none. */
    method Delete(id: int) returns (status: int, res: Result<()>)
      requires Valid()
      modifies this
      ensures Valid()
      ensures nextId == old(nextId) && issued == old(issued)
      ensures (forall i :: 0 <= i < |old(rows)| ==> old(rows)[i].id != id) ==>
                status == Status(NotFound) && res == Err(NotFound) && rows == old(rows)
      ensures (exists i :: 0 <= i < |old(rows)| && old(rows)[i].id == id) ==>
                status == OK && res == Ok(()) && rows == WithoutId(old(rows), id)
                && |rows| == |old(rows)| - 1
    {
      var found := FindById(rows, id);
      if found.None? {
        status, res := Status(NotFound), Err(NotFound);
      } else {
        var i := found.value;
        RemoveAtIsWithoutId(rows, i);
        RemoveAtKeepsRows(rows, i, issued);
        rows := rows[..i] + rows[i + 1..];
        status, res := OK, Ok(());
      }
    }
  }

  /** The server's own request sequence on a fresh database: seed, list,
      list January, summarize, add "Test Chai", post a body with only a
      description, delete the new row, delete id 99999. `clock(i)` is the
      time the `i`-th seed row is stored at, `now` the time of the add. */
  method Walkthrough(clock: nat -> string, now: string)
    returns (listed: seq<Expense>, january: seq<Expense>, overall: Overall,
             added: Result<Expense>, statuses: seq<int>)
    ensures |listed| == 12
    ensures forall e :: e in january ==> e.month == "January"
    ensures overall == Overall(Some(655.0), 12)
    ensures added == Ok(Expense(13, "Test Chai", 15.0, "Food", "February", "2026-02-20", now))
    ensures statuses == [CREATED, 400, OK, 404]
  {
    var t := new Table();
    var _ := t.SeedIfEmpty(clock);
    listed, january, overall := Queries(t.rows, clock);
    added, statuses := Updates(t, now);
  }

  method Queries(rows: seq<Expense>, clock: nat -> string)
    returns (listed: seq<Expense>, january: seq<Expense>, overall: Overall)
    requires rows == Seeded(1, clock)
    ensures |listed| == 12
    ensures forall e :: e in january ==> e.month == "January"
    ensures overall == Overall(Some(655.0), 12)
  {
    SeedSummary(1, clock);
    listed := ListExpenses(rows, None);
    assert |listed| == |multiset(listed)| == |multiset(rows)|;
    january := ListExpenses(rows, Some("January"));
    forall e | e in january ensures e.month == "January" {
      assert e in multiset(january);
    }
    overall := Summarize(rows).overall;
  }

  method Updates(t: Table, now: string) returns (added: Result<Expense>, statuses: seq<int>)
    requires t.Valid() && |t.rows| == 12 && t.nextId == 13
    modifies t
    ensures added == Ok(Expense(13, "Test Chai", 15.0, "Food", "February", "2026-02-20", now))
    ensures statuses == [CREATED, 400, OK, 404]
  {
    var post, invalid, first, second, r1, r2, r3;
    post, added := t.Insert(Request(Some("Test Chai"), Some(15.0), Some("Food"), Some("February"), Some("2026-02-20")), now);
    invalid, r1 := t.Insert(Request(Some("Missing amount"), None, None, None, None), now);
    assert t.rows[12].id == 13;
    first, r2 := t.Delete(13);
    assert forall i :: 0 <= i < |t.rows| ==> t.rows[i].id in t.issued;
    second, r3 := t.Delete(99999);
    statuses := [post, invalid, first, second];
  }
}
