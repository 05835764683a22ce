/** The dashboard of frontend/src/App.jsx: the values it derives from the
    fetched expense list and the month filter, and the updates it makes to
    its own copy of the list after the server answers. Requests are not
    sent from here: each update takes the server's reply as a parameter. */
module App {
  import opened Records
  import opened Sums
  import opened Aggregate
  import opened Sorting

  const MONTHS: seq<string> := ["January", "February", "March", "April", "May", "June", "July",
                                "August", "September", "October", "November", "December"]

  lemma MonthsDistinct()
    ensures Distinct(MONTHS)
  {
  }

  /** `filtered`: the whole list under "All", otherwise the records of that
      month, each as often as it occurs, in their original order. */
  function Filtered(expenses: seq<Expense>, filterMonth: string): (r: seq<Expense>)
    ensures filterMonth == "All" ==> r == expenses
    ensures filterMonth != "All" ==>
              forall e :: multiset(r)[e] == if e.month == filterMonth then multiset(expenses)[e] else 0
    ensures Subsequence(r, expenses)
  {
    if filterMonth == "All" then
      SubsequenceReflexive(expenses);
      expenses
    else
      FilterMultiset(expenses, ByMonth, filterMonth);
      FilterSubsequence(expenses, ByMonth, filterMonth);
      Filter(expenses, ByMonth, filterMonth)
  }

  /** One slice of the category pie: `{ name, value }`. */
  datatype CatValue = CatValue(name: string, value: real)

  function Value(c: CatValue): real
  {
    c.value
  }

  ghost predicate Named(cs: seq<CatValue>, k: string)
  {
    exists i :: 0 <= i < |cs| && cs[i].name == k
  }

  /** The slices of a list of groups, one per group, in the same order. */
  function Slices(g: seq<Bucket>): (cs: seq<CatValue>)
    ensures |cs| == |g|
  {
    seq(|g|, i requires 0 <= i < |g| => CatValue(g[i].key, g[i].total))
  }

  /** A name labels a slice exactly when it is the key of a group. */
  lemma SlicesNamed(g: seq<Bucket>, k: string)
    ensures Named(Slices(g), k) <==> HasKey(g, k)
  {
    var cs := Slices(g);
    if Named(cs, k) {
      var i :| 0 <= i < |cs| && cs[i].name == k;
      assert g[i].key == k;
    }
    if HasKey(g, k) {
      var i :| 0 <= i < |g| && g[i].key == k;
      assert cs[i].name == k;
    }
  }

  /** `byCategory`: one entry per category present, in order of first
      appearance, valued at that category's sum. */
  function CategoryTotals(xs: seq<Expense>): (cs: seq<CatValue>)
    ensures forall i, j :: 0 <= i < j < |cs| ==> cs[i].name != cs[j].name
    ensures forall k :: Named(cs, k) <==> Occurs(xs, ByCategory, k)
    ensures forall i :: 0 <= i < |cs| ==> cs[i].value == SumWhere(xs, ByCategory, cs[i].name)
    ensures forall i, j :: 0 <= i < j < |cs| ==>
              FirstAt(xs, ByCategory, cs[i].name) < FirstAt(xs, ByCategory, cs[j].name) < |xs|
  {
    var g := Group(xs, ByCategory);
    GroupSummarizes(xs, ByCategory);
    KeysInFirstAppearanceOrder(xs, ByCategory);
    forall k ensures Named(Slices(g), k) <==> HasKey(g, k) {
      SlicesNamed(g, k);
    }
    Slices(g)
  }

  /** `totalSpend`: the sum of the filtered amounts, which is also the sum
      of the category slices. */
  function TotalSpend(filtered: seq<Expense>): (t: real)
    ensures t == SumBy(CategoryTotals(filtered), Value)
  {
    var g := Group(filtered, ByCategory);
    GroupConserves(filtered, ByCategory);
    SumByPointwise(g, BucketTotal, CategoryTotals(filtered), Value);
    Total(filtered)
  }

  /** The `map` object after a `forEach` doing
      `map[key] = (map[key] || 0) + e.amount` has run over `xs`, where the
      key is the record's `dim` column. */
  ghost function RunningSums(xs: seq<Expense>, dim: Dimension): map<string, real>
  {
    if xs == [] then map[]
    else Bump(RunningSums(xs[..|xs| - 1], dim), Key(xs[|xs| - 1], dim), xs[|xs| - 1].amount)
  }

  /** `map[k] = (map[k] || 0) + a`. */
  function Bump(m: map<string, real>, k: string, a: real): (r: map<string, real>)
    ensures r.Keys == m.Keys + {k}
    ensures r[k] == (if k in m then m[k] else 0.0) + a
    ensures forall j :: j in m && j != k ==> r[j] == m[j]
  {
    m[k := (if k in m then m[k] else 0.0) + a]
  }

  /** The map holds exactly the keys seen so far. */
  lemma {:induction false} RunningSumsKeys(xs: seq<Expense>, dim: Dimension, k: string)
    ensures k in RunningSums(xs, dim) <==> k in Keys(xs, dim)
  {
    if xs != [] {
      var init := xs[..|xs| - 1];
      RunningSumsKeys(init, dim, k);
      KeysSnoc(init, xs[|xs| - 1], dim);
      assert xs == init + [xs[|xs| - 1]];
    }
  }

  /** Each key of the map holds its sum; an absent key has sum zero. */
  lemma {:induction false} RunningSumsCorrect(xs: seq<Expense>, dim: Dimension, k: string)
    ensures k in RunningSums(xs, dim) ==> RunningSums(xs, dim)[k] == SumWhere(xs, dim, k)
    ensures k !in RunningSums(xs, dim) ==> SumWhere(xs, dim, k) == 0.0
  {
    if xs != [] {
      var init, e := xs[..|xs| - 1], xs[|xs| - 1];
      assert xs == init + [e];
      RunningSumsCorrect(init, dim, k);
      SumWhereSnoc(init, e, dim, k);
    }
  }

  /** Step `i` of the `forEach` on the loop's own state: the map gains or
      updates the record's key, and the key order gains the key when it
      is new. */
  lemma SumIntoStep(xs: seq<Expense>, i: nat, dim: Dimension, order: seq<string>, acc: map<string, real>)
    requires i < |xs|
    requires order == Keys(xs[..i], dim) && acc == RunningSums(xs[..i], dim)
    ensures var k := Key(xs[i], dim);
      && Keys(xs[..i + 1], dim) == (if k in acc then order else order + [k])
      && RunningSums(xs[..i + 1], dim) == Bump(acc, k, xs[i].amount)
  {
    var seen, e, k := xs[..i], xs[i], Key(xs[i], dim);
    RunningSumsKeys(seen, dim, k);
    KeysSnoc(seen, e, dim);
    assert xs[..i + 1] == seen + [e];
    assert (seen + [e])[..|seen|] == seen;
  }

  /** The entries of the finished category map, in key insertion order,
      are `byCategory`. */
  lemma CategoryEntries(xs: seq<Expense>)
    ensures var ks, m := Keys(xs, ByCategory), RunningSums(xs, ByCategory);
      && (forall n :: 0 <= n < |ks| ==> ks[n] in m)
      && seq(|ks|, n requires 0 <= n < |ks| && ks[n] in m => CatValue(ks[n], m[ks[n]])) == CategoryTotals(xs)
  {
    var ks := Keys(xs, ByCategory);
    forall n | 0 <= n < |ks| ensures ks[n] in RunningSums(xs, ByCategory) && RunningSums(xs, ByCategory)[ks[n]] == SumWhere(xs, ByCategory, ks[n]) {
      RunningSumsKeys(xs, ByCategory, ks[n]);
      RunningSumsCorrect(xs, ByCategory, ks[n]);
    }
  }

  /** The `forEach` that fills `map` keyed by the `dim` column; the
      insertion order of the keys, which `Object.entries` follows, is kept
      in `order`. */
  method SumInto(xs: seq<Expense>, dim: Dimension) returns (order: seq<string>, acc: map<string, real>)
    ensures order == Keys(xs, dim)
    ensures acc == RunningSums(xs, dim)
  {
    acc, order := map[], [];
    var i := 0;
    while i < |xs|
      invariant 0 <= i <= |xs|
      invariant order == Keys(xs[..i], dim)
      invariant acc == RunningSums(xs[..i], dim)
    {
      SumIntoStep(xs, i, dim, order, acc);
      var k := Key(xs[i], dim);
      if k !in acc {
        order := order + [k];
      }
      acc := Bump(acc, k, xs[i].amount);
      i := i + 1;
    }
    assert xs[..i] == xs;
  }

  /** `byCategory`: the map's entries as `{ name, value }`. */
  method CategoryBreakdown(filtered: seq<Expense>) returns (cs: seq<CatValue>)
    ensures cs == CategoryTotals(filtered)
  {
    var order, acc := SumInto(filtered, ByCategory);
    CategoryEntries(filtered);
    cs := seq(|order|, n requires 0 <= n < |order| && order[n] in acc => CatValue(order[n], acc[order[n]]));
  }

  /** One bar of the monthly chart: `{ month, amount }`. */
  datatype MonthPoint = MonthPoint(month: string, amount: real)

  function PointAmount(p: MonthPoint): real
  {
    p.amount
  }

  /** `m.slice(0, 3)`. */
  function Abbrev(m: string): (a: string)
    ensures |a| == if |m| < 3 then |m| else 3
    ensures a <= m
  {
    if |m| <= 3 then m else m[..3]
  }

  lemma AbbrevsDistinct()
    ensures forall i, j :: 0 <= i < j < |MONTHS| ==> Abbrev(MONTHS[i]) != Abbrev(MONTHS[j])
  {
    var labels := ["Jan", "Feb", "Mar", "Apr", "May", "Jun", "Jul", "Aug", "Sep", "Oct", "Nov", "Dec"];
    forall i | 0 <= i < |MONTHS| ensures Abbrev(MONTHS[i]) == labels[i] {
      assert MONTHS[i][..3] == labels[i];
    }
  }

  /** Every calendar month with its accumulated sum, in calendar order. */
  function Calendar(xs: seq<Expense>): seq<MonthPoint>
  {
    seq(|MONTHS|, i requires 0 <= i < |MONTHS| => MonthPoint(Abbrev(MONTHS[i]), SumWhere(xs, ByMonth, MONTHS[i])))
  }

  /** The points whose amount is truthy, that is, not zero. */
  function NonZero(ps: seq<MonthPoint>): seq<MonthPoint>
  {
    if ps == [] then []
    else
      var rest := NonZero(ps[..|ps| - 1]);
      var p := ps[|ps| - 1];
      if p.amount != 0.0 then rest + [p] else rest
  }

  /** A point survives exactly when its amount is not zero. */
  lemma {:induction false} NonZeroMembers(ps: seq<MonthPoint>)
    ensures forall p :: p in NonZero(ps) <==> p in ps && p.amount != 0.0
  {
    if ps != [] {
      var init, q := ps[..|ps| - 1], ps[|ps| - 1];
      assert ps == init + [q];
      NonZeroMembers(init);
    }
  }

  lemma {:induction false} NonZeroSubsequence(ps: seq<MonthPoint>)
    ensures Subsequence(NonZero(ps), ps)
  {
    if ps != [] {
      var init, p := ps[..|ps| - 1], ps[|ps| - 1];
      NonZeroSubsequence(init);
      assert ps == init + [p];
      var rest := NonZero(init);
      if p.amount != 0.0 {
        assert (rest + [p])[..|rest|] == rest;
      } else {
        SubsequenceExtend(rest, init, p);
      }
    }
  }

  /** Dropping zero amounts does not change the sum. */
  lemma {:induction false} NonZeroSum(ps: seq<MonthPoint>)
    ensures SumBy(NonZero(ps), PointAmount) == SumBy(ps, PointAmount)
  {
    if ps != [] {
      var init, p := ps[..|ps| - 1], ps[|ps| - 1];
      NonZeroSum(init);
      if p.amount != 0.0 {
        SumBySnoc(NonZero(init), p, PointAmount);
      }
    }
  }

  /** `byMonth`: the calendar months whose accumulated sum is truthy, in
      calendar order, labelled by their first three letters. */
  function MonthSeries(expenses: seq<Expense>): seq<MonthPoint>
  {
    NonZero(Calendar(expenses))
  }

  /** The chart lists months in calendar order. */
  lemma MonthSeriesInCalendarOrder(expenses: seq<Expense>)
    ensures Subsequence(MonthSeries(expenses), Calendar(expenses))
  {
    NonZeroSubsequence(Calendar(expenses));
  }

  /** A calendar month has a bar exactly when its sum is not zero, and
      the bar carries that sum. */
  lemma MonthSeriesPresence(expenses: seq<Expense>, i: nat)
    requires i < |MONTHS|
    ensures (exists p :: p in MonthSeries(expenses) && p.month == Abbrev(MONTHS[i]))
            <==> SumWhere(expenses, ByMonth, MONTHS[i]) != 0.0
    ensures forall p :: p in MonthSeries(expenses) && p.month == Abbrev(MONTHS[i]) ==>
              p.amount == SumWhere(expenses, ByMonth, MONTHS[i])
  {
    var c := Calendar(expenses);
    AbbrevsDistinct();
    NonZeroMembers(c);
    assert c[i] == MonthPoint(Abbrev(MONTHS[i]), SumWhere(expenses, ByMonth, MONTHS[i]));
    forall p | p in MonthSeries(expenses) && p.month == Abbrev(MONTHS[i])
      ensures p == c[i]
    {
      var j :| 0 <= j < |c| && c[j] == p;
      assert Abbrev(MONTHS[j]) == Abbrev(MONTHS[i]);
    }
    if SumWhere(expenses, ByMonth, MONTHS[i]) != 0.0 {
      assert c[i] in c;
    }
  }

  /** An expense whose month is not a calendar month name changes no bar. */
  lemma MonthSeriesIgnoresUnknownMonth(expenses: seq<Expense>, e: Expense)
    requires e.month !in MONTHS
    ensures MonthSeries(expenses + [e]) == MonthSeries(expenses)
  {
    forall i | 0 <= i < |MONTHS| ensures
      SumWhere(expenses + [e], ByMonth, MONTHS[i]) == SumWhere(expenses, ByMonth, MONTHS[i])
    {
      SumWhereSnoc(expenses, e, ByMonth, MONTHS[i]);
    }
    assert Calendar(expenses + [e]) == Calendar(expenses);
  }

  /** When every month is a calendar month, the bars add up to the total
      of the whole list. */
  lemma MonthSeriesTotal(expenses: seq<Expense>)
    requires forall i :: 0 <= i < |expenses| ==> expenses[i].month in MONTHS
    ensures SumBy(MonthSeries(expenses), PointAmount) == Total(expenses)
  {
    MonthsDistinct();
    TallyConserves(expenses, ByMonth, MONTHS);
    SumByPointwise(Calendar(expenses), PointAmount, Tally(expenses, ByMonth, MONTHS), BucketTotal);
    NonZeroSum(Calendar(expenses));
  }

  /** The two loops of `byMonth`: the `forEach` summing by month into
      `map`, then `MONTHS.filter(...).map(...)`. */
  method MonthlyComparison(expenses: seq<Expense>) returns (ps: seq<MonthPoint>)
    ensures ps == MonthSeries(expenses)
  {
    var months, acc := SumInto(expenses, ByMonth);
    var c := Calendar(expenses);
    ps := [];
    var j := 0;
    while j < |MONTHS|
      invariant 0 <= j <= |MONTHS|
      invariant ps == NonZero(c[..j])
    {
      var m := MONTHS[j];
      assert c[..j + 1][..j] == c[..j];
      assert c[j] == MonthPoint(Abbrev(m), SumWhere(expenses, ByMonth, m));
      RunningSumsCorrect(expenses, ByMonth, m);
      if m in acc && acc[m] != 0.0 {
        ps := ps + [MonthPoint(Abbrev(m), acc[m])];
      }
      j := j + 1;
    }
    assert c[..j] == c;
  }

  /** `topCategory`: the first entry after a stable sort of a copy by
      value, largest first; absent when there are no entries. */
  function TopCategory(cs: seq<CatValue>): (r: Option<CatValue>)
    ensures r.None? <==> cs == []
    ensures r.Some? ==> r.value == cs[EarliestMax(cs, Value)]
  {
    if cs == [] then None
    else
      SortDescHead(cs, Value);
      Some(SortDesc(cs, Value)[0])
  }

  /** The top category is absent exactly when nothing passes the filter;
      otherwise its sum is the largest, and every category that appears
      earlier has a strictly smaller sum. */
  lemma TopCategoryOfFiltered(filtered: seq<Expense>)
    ensures var top := TopCategory(CategoryTotals(filtered));
      && (top.None? <==> filtered == [])
      && (top.Some? ==>
            && Occurs(filtered, ByCategory, top.value.name)
            && top.value.value == SumWhere(filtered, ByCategory, top.value.name)
            && forall k :: Occurs(filtered, ByCategory, k) ==>
                 SumWhere(filtered, ByCategory, k) <= top.value.value
                 && (FirstAt(filtered, ByCategory, k) < FirstAt(filtered, ByCategory, top.value.name) ==>
                       SumWhere(filtered, ByCategory, k) < top.value.value))
  {
    var cs := CategoryTotals(filtered);
    if filtered != [] {
      assert Occurs(filtered, ByCategory, filtered[0].category);
      assert Named(cs, filtered[0].category);
      var t := EarliestMax(cs, Value);
      assert Named(cs, cs[t].name);
      forall k | Occurs(filtered, ByCategory, k)
        ensures SumWhere(filtered, ByCategory, k) <= cs[t].value
        ensures FirstAt(filtered, ByCategory, k) < FirstAt(filtered, ByCategory, cs[t].name) ==>
                  SumWhere(filtered, ByCategory, k) < cs[t].value
      {
        TopCategoryBeats(filtered, k);
      }
    }
  }

  /** The earliest largest slice is at least as large as any category's
      sum, and larger than the sum of a category that appears earlier. */
  lemma TopCategoryBeats(filtered: seq<Expense>, k: string)
    requires Occurs(filtered, ByCategory, k)
    ensures var cs := CategoryTotals(filtered);
      && cs != []
      && var t := EarliestMax(cs, Value);
      && SumWhere(filtered, ByCategory, k) <= cs[t].value
      && (FirstAt(filtered, ByCategory, k) < FirstAt(filtered, ByCategory, cs[t].name) ==>
            SumWhere(filtered, ByCategory, k) < cs[t].value)
  {
    var cs := CategoryTotals(filtered);
    assert Named(cs, k);
    var i :| 0 <= i < |cs| && cs[i].name == k;
    var t := EarliestMax(cs, Value);
    assert Value(cs[i]) <= Value(cs[t]);
    if i > t {
      assert FirstAt(filtered, ByCategory, cs[t].name) < FirstAt(filtered, ByCategory, cs[i].name);
    } else if i < t {
      assert Value(cs[i]) < Value(cs[t]);
    }
  }

  /** "Recent Transactions": the first five filtered records, or all of
      them when there are fewer. */
  function RecentFive(filtered: seq<Expense>): (r: seq<Expense>)
    ensures |r| == if |filtered| < 5 then |filtered| else 5
    ensures forall i :: 0 <= i < |r| ==> r[i] == filtered[i]
  {
    if |filtered| < 5 then filtered else filtered[..5]
  }

  /** What the server answered to a request, or that the request failed
      before any answer came. */
  datatype Reply<T> = Succeeded(data: T) | Failed(error: string) | Unreachable

  /** The add form; every field holds the text of its input. */
  datatype Form = Form(description: string, amount: string, category: string, month: string, date: string)

  /** The state of the dashboard component that its updates change. */
  class Dashboard {
    var expenses: seq<Expense>
    var filterMonth: string
    var form: Form
    var activeTab: string
    var toast: Option<string>

    /** The initial state: no records, every month shown, an empty form
        for `month` and `date` of today. */
    constructor (month: string, date: string)
      ensures expenses == [] && filterMonth == "All" && activeTab == "dashboard" && toast == None
      ensures form == Form("", "", "Food", month, date)
    {
      expenses, filterMonth, activeTab, toast := [], "All", "dashboard", None;
      form := Form("", "", "Food", month, date);
    }

    /** `fetchExpenses`: replace the list with the server's on success. */
    method Load(reply: Reply<seq<Expense>>)
      modifies this
      ensures reply.Succeeded? ==> expenses == reply.data && toast == old(toast)
      ensures reply.Failed? ==> expenses == old(expenses) && toast == old(toast)
      ensures reply.Unreachable? ==> expenses == old(expenses) && toast == Some("Could not connect to backend")
      ensures form == old(form) && filterMonth == old(filterMonth) && activeTab == old(activeTab)
    {
      match reply
      case Succeeded(data) => expenses := data;
      case Failed(_) =>
      case Unreachable => toast := Some("Could not connect to backend");
    }

    /** `addExpense`. With an empty description or amount nothing is sent;
      otherwise the reply decides: a stored record goes to the front of the
      list and the form is cleared, anything else only shows a message. */
    method Add(reply: Reply<Expense>, month: string, date: string) returns (sent: bool)
      modifies this
      ensures sent <==> old(form).description != "" && old(form).amount != ""
      ensures !sent ==> expenses == old(expenses) && form == old(form) && activeTab == old(activeTab)
                        && toast == Some("Fill in description and amount")
      ensures sent && reply.Succeeded? ==>
                expenses == [reply.data] + old(expenses) && form == Form("", "", "Food", month, date)
                && toast == Some("Expense added \U{2713}") && activeTab == "dashboard"
      ensures sent && reply.Failed? ==>
                expenses == old(expenses) && form == old(form) && activeTab == old(activeTab)
                && toast == Some(if reply.error != "" then reply.error else "Failed to add")
      ensures sent && reply.Unreachable? ==>
                expenses == old(expenses) && form == old(form) && activeTab == old(activeTab)
                && toast == Some("Could not connect to backend")
      ensures filterMonth == old(filterMonth)
    {
      if form.description == "" || form.amount == "" {
        toast := Some("Fill in description and amount");
        return false;
      }
      sent := true;
      match reply
      case Succeeded(data) =>
        expenses := [data] + expenses;
        form := Form("", "", "Food", month, date);
        toast := Some("Expense added \U{2713}");
        activeTab := "dashboard";
      case Failed(error) =>
        toast := Some(if error != "" then error else "Failed to add");
      case Unreachable =>
        toast := Some("Could not connect to backend");
    }

    /** `deleteExpense`: on success drop every record with that id, keeping
      the others in order; otherwise keep the list. */
    method Delete(id: int, reply: Reply<()>)
      modifies this
      ensures reply.Succeeded? ==> expenses == WithoutId(old(expenses), id) && toast == old(toast)
      ensures reply.Failed? ==> expenses == old(expenses) && toast == old(toast)
      ensures reply.Unreachable? ==> expenses == old(expenses) && toast == Some("Could not delete")
      ensures form == old(form) && filterMonth == old(filterMonth) && activeTab == old(activeTab)
    {
      match reply
      case Succeeded(_) => expenses := WithoutId(expenses, id);
      case Failed(_) =>
      case Unreachable => toast := Some("Could not delete");
    }
  }

  /** After a successful delete the list holds exactly the records with a
      different id, in their original order. */
  lemma DeleteKeepsOthers(expenses: seq<Expense>, id: int)
    ensures forall e :: e in WithoutId(expenses, id) <==> e in expenses && e.id != id
    ensures Subsequence(WithoutId(expenses, id), expenses)
  {
    WithoutIdSubsequence(expenses, id);
  }
}
