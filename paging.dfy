/** What the two repositories share: the page-to-offset arithmetic, the
    "page full means more" heuristic, and the abstract database that answers
    a query with rows or fails. */
module Paging {
  import opened Results

  /** One execution of a query: it throws (connection or execution failure),
      or it yields `result.rows`, which may be absent. */
  datatype QueryOutcome<R> = Failed | Rows(rows: Option<seq<R>>)

  /** The rows a successful query returned, an absent `rows` read as none. */
  function Returned<R>(o: QueryOutcome<R>): (rows: seq<R>)
    requires o.Rows?
  {
    match o.rows
    case None => []
    case Some(rows) => rows
  }

  /** `(page - 1) * limit`: how many rows the pages before `page` cover. */
  function Offset(page: int, limit: int): (offset: int)
    ensures page == 1 ==> offset == 0
    ensures page >= 1 && limit >= 0 ==> offset >= 0
    ensures offset + limit == page * limit
  {
    (page - 1) * limit
  }

  /** `rows.length === limit`, evaluated only once the rows are known to be
      non-empty: a page with as many rows as were asked for is taken to have
      a successor, whether or not one exists. */
  function HasMore(count: nat, limit: int): (more: bool)
  {
    count > 0 && count == limit
  }

  /** The first page starts at row 0, and each page starts exactly `limit`
      rows after the one before it, so consecutive pages neither overlap nor
      leave a gap. */
  lemma OffsetSteps(page: int, limit: int)
    ensures Offset(1, limit) == 0
    ensures Offset(page + 1, limit) == Offset(page, limit) + limit
    ensures page >= 1 && limit >= 0 ==> Offset(page, limit) >= 0
  {
    assert page * limit == (page - 1) * limit + limit;
    if page >= 1 && limit >= 0 {
      assert (page - 1) * limit >= 0;
    }
  }
}
