/** The expense record, the one entity of the system: a row of the
    `expenses` table (backend/server.js) and, as fetched JSON, an element
    of the dashboard's `expenses` list (frontend/src/App.jsx). */
module Records {

  datatype Option<T> = None | Some(value: T)

  /** A stored row. `id` is assigned by the table on insertion and
      `createdAt` is the table's `datetime('now')` default, kept as an
      opaque text. Amounts are exact reals. */
  datatype Expense = Expense(
    id: int,
    description: string,
    amount: real,
    category: string,
    month: string,
    date: string,
    createdAt: string)

  /** The five columns an insert supplies. */
  datatype Entry = Entry(
    description: string,
    amount: real,
    category: string,
    month: string,
    date: string)

  /** The row the table stores for `e` under `id` at time `createdAt`. */
  function Stored(e: Entry, id: int, createdAt: string): Expense
  {
    Expense(id, e.description, e.amount, e.category, e.month, e.date, createdAt)
  }

  function Amount(e: Expense): real
  {
    e.amount
  }

  /** The two columns the aggregations group by. */
  datatype Dimension = ByMonth | ByCategory

  function Key(e: Expense, dim: Dimension): string
  {
    match dim
    case ByMonth => e.month
    case ByCategory => e.category
  }

  /** No two rows share an id (the primary key). */
  predicate UniqueIds(xs: seq<Expense>)
  {
    forall i, j :: 0 <= i < j < |xs| ==> xs[i].id != xs[j].id
  }
}
