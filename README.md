# Expense tracker: server table and dashboard, in Dafny

This project models the two halves of a small personal-expense tracker
and proves properties of the model.

- **The server** (`backend/server.js`) keeps one SQLite table `expenses`,
  with an AUTOINCREMENT id. At start-up it seeds twelve sample rows into
  an empty table. It answers four `/api/expenses` routes:
  - list the rows, optionally for one month, newest date first;
  - summarize them by month, by category and overall;
  - add a validated row;
  - delete a row by id.
- **The dashboard** (`frontend/src/App.jsx`) holds the fetched list and a
  month filter. From them it derives:
  - the filtered list and its total;
  - the per-category slices of a pie chart;
  - the per-month bars of a bar chart;
  - the top category;
  - the five most recent rows.

  It also updates its own copy of the list when the server accepts an
  addition or a deletion.

Modules:

- `Records`: the expense row, the five columns an insert supplies, and
  the two grouping columns.
- `Sums`: sums of a measure over a sequence, with lemmas for appending,
  reordering and pointwise equality.
- `Aggregate`: the shared semantics of `WHERE month = ?`, `GROUP BY`,
  `SUM` and `COUNT`, and of the dashboard's `filter` and `forEach`
  accumulations. It includes first-appearance key order.
- `Sorting`: `ORDER BY date DESC` under SQLite's BINARY collation, a
  stable descending sort by a numeric rank, and the earliest maximum.
- `Api`: the server.
  - Validation, listing and the summary are functions.
  - The table is the class `Api.Table`. It has the rows, the next
    AUTOINCREMENT id and, as ghost state, every id ever issued. Its
    methods seed, insert and delete.
  - `Api.Walkthrough` replays the server's own test script on a fresh
    database.
- `App`: the dashboard.
  - The derived values are functions.
  - The two `forEach` accumulations share one method with a loop,
    `App.SumInto`, proved equal to a fold, and the two chart methods
    built on it are proved equal to those functions.
  - The list updates are methods of the class `App.Dashboard`. Each takes
    the server's reply as a parameter.
- `Consistency`: under the filter "All", the dashboard's category slices
  and totals agree with the server's summary.

Amounts are exact `real`s, so every sum identity holds exactly. The
`created_at` clock value of an insert is the parameter `now`; the seeding
takes one clock reading per row, `clock(i)` for the `i`-th seed row. The dashboard's default
form month and date are the parameters `month` and `date`.

## Model

| member | source | states |
|---|---|---|
| Api.Validate | backend/server.js:104-112 | A request passes exactly when all five fields are truthy and the amount is positive. A falsy field (absent, empty text, amount 0) gives "All fields are required". Otherwise a negative amount gives "Amount must be a positive number". A passing request yields the five fields unchanged. |
| Api.ListExpenses | backend/server.js:59-67 | With a month that is present, not empty and not "All", every row of that month as often as stored and no other row. Otherwise every row. Newest date first in both cases. |
| Api.Summarize | backend/server.js:75-95 | `overall.count` is the row count. `overall.total` is the sum of the amounts, or NULL for an empty table. `byMonth` and `byCategory` each hold one group per distinct value present and no other. Each group has its key's sum and count. Group sums add up to the total and group counts to the row count. `byCategory` is non-increasing in total. |
| Api.FindById | backend/server.js:130 | Finds a position holding the id, or reports that no row has it. |
| Api.RemoveAtKeepsRows | backend/server.js:136 | Removing one row keeps the ids unique and issued, and keeps every amount positive. |
| Api.SeedRows | backend/server.js:37-50 | The seed has twelve rows: ten January rows, then two February rows of 90 each. |
| Api.SeedJanuaryTotal | backend/server.js:38-47 | The ten January seed rows total 475. |
| Api.SeedTotals | backend/server.js:37-52 | The seeded table totals 655 over 12 rows: January 475 over 10, February 180 over 2, and no other month. |
| Api.SummarizesTwoKeys | backend/server.js:77-89 | A correct grouping of rows holding exactly two keys consists of exactly those two keys' groups. |
| Api.SeedSummary | backend/server.js:37-93 | The summary of the seeded table is overall (655, 12), and its month groups are exactly (January, 475, 10) and (February, 180, 2). |
| Api.Table.constructor | backend/server.js:17-27 | A new table is empty, its next id is 1, and no id has been issued. |
| Api.Table.Append | backend/server.js:114-119 | Appends one row with the next id, which was never issued before, and the clock value. Every other row stays the same. |
| Api.Table.SeedIfEmpty | backend/server.js:30-54 | Seeds only an empty table, with the twelve sample rows in order under consecutive fresh ids, each stamped with its own clock reading. Those twelve ids are added to the issued ids, and no earlier issued id is forgotten. A non-empty table is left untouched. |
| Api.Table.Insert | backend/server.js:102-124 | A refused request gives its 400 status and error and leaves the table unchanged. An accepted one gives 201 and the stored row. That row carries the request's fields and a never-issued id, and is appended with nothing else changed. |
| Api.Table.Delete | backend/server.js:127-141 | An absent id gives 404 with the table unchanged. A present id gives 200 and removes exactly the rows with that id (with unique ids, one row). Ids are never reissued. |
| Api.Walkthrough | backend/test.js:59-109 | On a fresh database: 12 rows are listed, the January listing holds only January rows, and the overall summary is (655, 12). The add gets 201 and the row (13, "Test Chai", 15, Food, February, 2026-02-20). The statuses are 201, 400, 200, 404. |
| Api.Queries | backend/test.js:59-79 | The read-only part of the walkthrough on the seeded rows. |
| Api.Updates | backend/test.js:81-109 | The writing part of the walkthrough: the statuses and the added row. |
| Sums.SumBySnoc | frontend/src/App.jsx:90 | The `reduce` over one more element adds that element's measure. |
| Sums.SumByAppend | frontend/src/App.jsx:90 | A sum over a concatenation is the sum of the two parts' sums. |
| Sums.SumNatAppend | backend/server.js:78 | A count over a concatenation is the sum of the two parts' counts. |
| Sums.SumByPermutation | backend/server.js:78 | `SUM` does not depend on the order of the rows. |
| Sums.SumNatPermutation | backend/server.js:78 | `COUNT` does not depend on the order of the rows. |
| Sums.SumByPointwise | backend/server.js:92 | Two lists of equal length whose measures agree position by position have the same sum. |
| Aggregate.FilterMultiset | backend/server.js:64 | Every matching record is kept as often as it occurs, and no other record is kept. |
| Aggregate.FilterSubsequence | frontend/src/App.jsx:86 | The filter keeps the input order. |
| Aggregate.FilterSnoc | frontend/src/App.jsx:86 | Appending one record appends it to the filter result exactly when it matches. |
| Aggregate.FilterAppend | backend/server.js:64 | Filtering distributes over concatenation. |
| Aggregate.FilterAllMatch | backend/server.js:64 | A filter that every record matches returns the whole list. |
| Aggregate.FilterNoMatch | backend/server.js:64 | A filter that no record matches returns nothing. |
| Aggregate.TotalPrefix | backend/server.js:92 | One more record adds its amount to the running sum. |
| Aggregate.Keys | frontend/src/App.jsx:94-95 | The keys are distinct. |
| Aggregate.KeysMembers | frontend/src/App.jsx:94-95 | A value is among the keys exactly when some record has it in that column. |
| Aggregate.KeysSnoc | frontend/src/App.jsx:94 | A new key goes at the end, and a known key changes nothing. |
| Aggregate.FirstAt | frontend/src/App.jsx:94-95 | Gives the first position of a key, or the length when the key is absent. |
| Aggregate.FirstAtUnique | frontend/src/App.jsx:94-95 | A matching position with no earlier match is the first occurrence. |
| Aggregate.FirstAtSnoc | frontend/src/App.jsx:94-95 | Appending a record does not move an existing key's first occurrence. |
| Aggregate.KeysInFirstAppearanceOrder | frontend/src/App.jsx:94-95 | Keys come in order of their first occurrence in the list, the insertion order of the `map` object. |
| Aggregate.SumWhereSnoc | frontend/src/App.jsx:94 | One more record adds its amount, and one to the count, to its own key's group only. |
| Aggregate.TallyLast | backend/server.js:77-89 | The last key's group, with that key's sum and count, comes last. |
| Aggregate.TallySnocTotal | backend/server.js:77-89 | One more record adds its amount to the groups' sums exactly when its key is tallied. |
| Aggregate.TallySnocCount | backend/server.js:77-89 | One more record adds one to the groups' counts exactly when its key is tallied. |
| Aggregate.TallyConserves | backend/server.js:77-93 | Groups over distinct keys that cover every record have sums adding up to the total and counts adding up to the row count. |
| Aggregate.ZeroBuckets | backend/server.js:77-89 | Groups that are all zero add up to zero. |
| Aggregate.GroupConserves | backend/server.js:77-93 | `GROUP BY` conserves the total amount and the row count. |
| Aggregate.GroupSummarizes | backend/server.js:77-89 | `GROUP BY` yields one group per distinct key present, each with its key's sum and count. |
| Aggregate.DistinctKeysOccurOnce | backend/server.js:84-89 | Groups with distinct keys occur once each. |
| Aggregate.TwiceInMultiset | backend/server.js:84-89 | An element at two positions occurs at least twice. |
| Aggregate.ReorderedKeysStayDistinct | backend/server.js:84-89 | Reordering groups keeps their keys distinct. |
| Aggregate.ReorderedSummarizes | backend/server.js:84-89 | Any reordering of a correct grouping, `ORDER BY total DESC` included, is still a correct grouping. |
| Aggregate.SumWherePermutation | frontend/src/App.jsx:92-96 | Reordering the records changes no group's sum or count. |
| Aggregate.DistinctCardinality | frontend/src/App.jsx:95 | A list of distinct keys has as many elements as its set of keys. |
| Aggregate.TotalPositive | backend/server.js:110-112 | With every stored amount positive, a non-empty table has a positive total. |
| Aggregate.WithoutIdSnoc | frontend/src/App.jsx:79 | One more record survives the removal exactly when its id differs. |
| Aggregate.WithoutIdMultiset | backend/server.js:136 | A record with another id survives as often as it occurred, and no record with that id survives. |
| Aggregate.WithoutIdAppend | frontend/src/App.jsx:79 | Removing by id distributes over concatenation. |
| Aggregate.WithoutAbsentId | backend/server.js:132-134 | Deleting an id that no row holds changes nothing. |
| Aggregate.RemoveAtIsWithoutId | backend/server.js:136 | With unique ids, deleting a row's id removes that single row and keeps the others in order. |
| Aggregate.WithoutIdSubsequence | frontend/src/App.jsx:79 | Removing by id keeps the survivors in their original order. |
| Sorting.TextLeTotal | backend/server.js:64 | Any two texts are comparable under BINARY collation. |
| Sorting.TextLeTransitive | backend/server.js:64 | BINARY collation order is transitive. |
| Sorting.PrependByDate | backend/server.js:64-66 | A row no older than the head of a newest-first list can go in front. |
| Sorting.ConsByDate | backend/server.js:64-66 | A row no older than every row of a newest-first list can go in front. |
| Sorting.InsertByDate | backend/server.js:64-66 | Inserting adds exactly that row and keeps every other row. |
| Sorting.InsertByDateSorted | backend/server.js:64-66 | Inserting keeps a newest-first list newest-first. |
| Sorting.SortByDate | backend/server.js:64-66 | `ORDER BY date DESC` gives a reordering of the same rows, newest date first. |
| Sorting.ConsDesc | backend/server.js:88 | An element ranked no lower than every element of a descending list can go in front. |
| Sorting.InsertDesc | backend/server.js:88 | Inserting adds exactly that element and keeps every other element. |
| Sorting.InsertDescSorted | backend/server.js:88 | Inserting keeps a descending list descending. |
| Sorting.SortDesc | frontend/src/App.jsx:104 | The sort gives a reordering of the same elements, largest rank first. |
| Sorting.EarliestMax | frontend/src/App.jsx:104 | Gives the position of a maximum, with every earlier element strictly smaller. |
| Sorting.SortDescHead | frontend/src/App.jsx:104 | The stable descending sort puts the earliest maximum first. |
| App.MonthsDistinct | frontend/src/App.jsx:7 | The twelve month names are distinct. |
| App.AbbrevsDistinct | frontend/src/App.jsx:7 | Their three-letter labels are distinct too. |
| App.Filtered | frontend/src/App.jsx:85-88 | Under "All", the list itself. Otherwise every record of that month as often as it occurs and no other record. The original order is kept in both cases. |
| App.SlicesNamed | frontend/src/App.jsx:95 | A name labels a slice exactly when it is the key of a group. |
| App.CategoryTotals | frontend/src/App.jsx:92-96 | One entry per category present and no other, with distinct names. Each value is that category's sum. Entries come in first-appearance order. |
| App.TotalSpend | frontend/src/App.jsx:90 | The total of the filtered amounts equals the sum of the category slices. |
| App.Bump | frontend/src/App.jsx:94 | `map[k] = (map[k] \|\| 0) + a` adds `k` to the keys, sets its entry to its old entry (or 0) plus `a`, and leaves every other entry alone. |
| App.RunningSumsKeys | frontend/src/App.jsx:93-94 | After the `forEach`, the map's keys are exactly the values seen in its column. |
| App.RunningSumsCorrect | frontend/src/App.jsx:93-94 | Each key of the map holds that key's sum; an absent key has sum zero. |
| App.SumIntoStep | frontend/src/App.jsx:94 | One `forEach` step bumps the record's key, and appends the key to the key order exactly when it is new. |
| App.CategoryEntries | frontend/src/App.jsx:95 | The finished map's entries, in key insertion order, are the category slices. |
| App.SumInto | frontend/src/App.jsx:93-94 | The loop ends with the keys in first-appearance order and each key's running sum. |
| App.CategoryBreakdown | frontend/src/App.jsx:92-96 | `byCategory` as computed equals the category slices. |
| App.Abbrev | frontend/src/App.jsx:101 | `slice(0, 3)` gives the prefix of length three, or the whole name when it is shorter. |
| App.NonZeroMembers | frontend/src/App.jsx:101 | A point is kept exactly when its amount is truthy, that is, not zero. |
| App.NonZeroSubsequence | frontend/src/App.jsx:101 | Dropping points keeps the order. |
| App.NonZeroSum | frontend/src/App.jsx:101 | Dropping zero points keeps the sum. |
| App.MonthSeriesInCalendarOrder | frontend/src/App.jsx:101 | The bars come in calendar order. |
| App.MonthSeriesPresence | frontend/src/App.jsx:98-102 | A calendar month has a bar exactly when its sum is non-zero, and the bar carries that sum. |
| App.MonthSeriesIgnoresUnknownMonth | frontend/src/App.jsx:100-101 | A record whose month is not a calendar month name changes no bar. |
| App.MonthSeriesTotal | frontend/src/App.jsx:98-102 | When every month is a calendar month, the bars add up to the total of the whole list (the filter is ignored). |
| App.MonthlyComparison | frontend/src/App.jsx:98-102 | `byMonth` as computed by its two loops (the month `forEach`, via `SumInto`, then the filter and map over the month names) equals the bar series. |
| App.TopCategory | frontend/src/App.jsx:104 | Absent exactly when there are no slices. Otherwise it is the earliest slice of largest value. |
| App.TopCategoryBeats | frontend/src/App.jsx:104 | No category's sum exceeds the top one, and every category appearing earlier has a smaller sum. |
| App.TopCategoryOfFiltered | frontend/src/App.jsx:104 | Absent exactly when the filtered list is empty. Otherwise its value is its category's sum. No category beats it, and every category appearing earlier is strictly smaller. |
| App.RecentFive | frontend/src/App.jsx:212 | The first min(5, n) filtered records, in order. |
| App.Dashboard.constructor | frontend/src/App.jsx:24-28 | Starts with no records, filter "All", the dashboard tab, no message, and an empty form. |
| App.Dashboard.Load | frontend/src/App.jsx:32-42 | A successful fetch replaces the list. A failed one keeps it. An unreachable server keeps it and shows "Could not connect to backend". |
| App.Dashboard.Add | frontend/src/App.jsx:52-72 | In every case the month filter is unchanged. An empty description or amount sends nothing and changes only the message. Otherwise the reply decides. Success: the row is prepended to the unchanged list, the form is cleared and the view returns to the dashboard. Failure: only the server's error (or "Failed to add") is shown. Unreachable server: a message and nothing else. |
| App.Dashboard.Delete | frontend/src/App.jsx:75-83 | Success drops the records with that id. A failure changes nothing. An unreachable server changes only the message. |
| App.DeleteKeepsOthers | frontend/src/App.jsx:79 | After a delete, exactly the records with another id remain, in their original order. |
| Consistency.ShownIsReordered | backend/server.js:66 | The dashboard under "All" holds a reordering of the server's rows. |
| Consistency.ShownOccurs | backend/server.js:66 | The dashboard's list under "All" holds the same categories as the table. |
| Consistency.SliceIsGroup | frontend/src/App.jsx:92-96 | Each dashboard slice is some server group's (name, sum). |
| Consistency.GroupIsSlice | backend/server.js:84-89 | Each server category group's (name, sum) is a dashboard slice. |
| Consistency.CategoriesAgree | frontend/src/App.jsx:92-96 | Under "All", the dashboard's slices and the server's `byCategory` groups are the same (name, sum) pairs and equally many; only the order differs. |
| Consistency.SameSlices | frontend/src/App.jsx:92-96 | Lists whose entries match each other's hold the same (name, sum) pairs. |
| Consistency.SameKeysSameLength | backend/server.js:84-89 | Two lists of distinct values holding the same values are equally long. |
| Consistency.SameNamesSameLength | backend/server.js:84-89 | Two lists with distinct names whose entries match each other's are equally long. |
| Consistency.OverallAgrees | frontend/src/App.jsx:90 | Under "All", "Total Spent" and "Transactions" equal the server's overall sum and count, and an empty table has NULL for its total. |

## Left out

- HTTP: Express routing, CORS, JSON parsing and the 500 responses of the `catch` blocks are not modelled. Each route is an operation returning its status and result. `/health` and `app.listen` are not modelled.
- The `created_at` default `datetime('now')` is read afresh by every insert. The model takes each reading as a parameter: `now` for an insert, `clock(i)` for the `i`-th seed row. The readings are opaque text, and nothing relates one to another (that time does not run backwards is not modelled).
- Amounts are exact reals, not IEEE doubles. JSON strings as amounts, with `isNaN` and `parseFloat` coercion, are not modelled. A request amount is a number or absent.
- Request text fields are strings or absent. The truthiness of other JSON values in those fields is not modelled.
- The `:id` route parameter arrives as text and SQLite compares it with an INTEGER column. The model takes an integer id.
- A `month` query parameter given more than once (an array) is not modelled.
- Api.ListExpenses: rows with the same date may come in any order in SQL. The contract promises only the reordering and the newest-first order, though the model uses one fixed stable order.
- Api.Summarize: `byMonth` is ordered by a column that is not grouped, so its order is not defined. The contract promises no order for it. Groups of `byCategory` with equal totals may come in any order in SQL; the contract promises only the non-increasing order.
- Running out of 64-bit rowids under AUTOINCREMENT is not modelled. Ids are unbounded integers.
- `Object.entries` lists integer-like keys first, in numeric order. The model keeps insertion order, which matches only for names that are not array indices.
- Names inherited from `Object.prototype` (such as `constructor`) used as a category or month are not modelled.
- Not modelled on the dashboard: `fetch`, `async`, `useEffect`, the `loading` flag and the toast timer.
- Not modelled: JSX rendering, colours, charts, `formatINR` and the rounded "Avg per Entry".
- The form's per-field edits and the tab and filter selectors are plain state setters and are not modelled.
- The "Expense added" message is written with the check mark U+2713. The source text shows that character mis-encoded.
- `backend/test.js` is an HTTP harness. It is reflected only by `Api.Walkthrough`.
