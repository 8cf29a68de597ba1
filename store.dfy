/**
 * The data store as the search code sees it: the rows of the `vehicles`
 * table, the query a builder chain describes, and what awaiting the query
 * delivers.
 */
module Store {
  import opened Wrappers

  /** A row of the `vehicles` table. */
  datatype Vehicle = Vehicle(id: int, vin: string, plates: string, make: string, model: string, year: int, color: string)

  /** `supabase.from(table).select(columns)` followed by one `.or(filter)` call
      per element of `orFilters`, in order. */
  datatype Query = Query(table: string, columns: string, orFilters: seq<string>) {
    /** `.or(filter)`: one more disjunctive filter on the same query. */
    function Or(filter: string): Query {
      this.(orFilters := orFilters + [filter])
    }
  }

  /** `supabase.from(table).select(columns)`: every row, no filter. */
  function Select(table: string, columns: string): Query {
    Query(table, columns, [])
  }

  /** What `await query` delivers: a response whose `error` is set, a rejected
      promise, or a response without error whose `data` may be null (`None`). */
  datatype Outcome = Errored | Threw | Answered(data: Option<seq<Vehicle>>)
}
