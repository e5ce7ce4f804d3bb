/** `getByClient`: one page of a sales representative's active clients,
    filtered by a search term, read from the database and mapped from
    positional rows to named records. */
module ClientRepository {
  import opened Results
  import opened Paging

  /** A result row: the eight selected columns, in query order. */
  type ClientRow = (string, string, string, string, string, string, string, string)

  datatype Client = Client(
    codigo: string, cnpj: string, razaoSoc: string, contato: string,
    endereco: string, cidade: string, tabela: string, reajuste: string)

  datatype ClientPage = ClientPage(clientes: seq<Client>, hasMore: bool)

  /** The named bind parameters of the query. */
  datatype Binds = Binds(id: string, search: string, offset: int, limit: int)

  const ClientsError := "Erro ao buscar clientes no banco de dados."

  /** The search term as bound to `:search`: wrapped in `%` on both sides, so
      it matches anywhere in the name or code. */
  function SearchPattern(search: string): (p: string)
    ensures |p| == |search| + 2
    ensures p[0] == '%' && p[|p| - 1] == '%'
    ensures p[1..|p| - 1] == search
  {
    "%" + search + "%"
  }

  /** The query is scoped to the representative `id`, asks for `limit` rows,
      starts at row 0 on page 1 and matches the term anywhere. */
  function QueryBinds(id: string, page: int, limit: int, search: string): (b: Binds)
    ensures b.id == id && b.limit == limit
    ensures page == 1 ==> b.offset == 0
    ensures page >= 1 && limit >= 0 ==> b.offset >= 0
    ensures b.offset + limit == page * limit
    ensures |b.search| == |search| + 2 && b.search[1..|b.search| - 1] == search
    ensures b.search[0] == '%' && b.search[|b.search| - 1] == '%'
  {
    Binds(id, SearchPattern(search), Offset(page, limit), limit)
  }

  /** The object literal built for one row: column i goes to field i. */
  function FromRow(row: ClientRow): (c: Client)
    ensures ToRow(c) == row
  {
    Client(row.0, row.1, row.2, row.3, row.4, row.5, row.6, row.7)
  }

  /** The inverse reading of a record as the row it came from. */
  function ToRow(c: Client): (row: ClientRow)
  {
    (c.codigo, c.cnpj, c.razaoSoc, c.contato, c.endereco, c.cidade, c.tabela, c.reajuste)
  }

  lemma RowRoundTrip(row: ClientRow, c: Client)
    ensures ToRow(FromRow(row)) == row
    ensures FromRow(ToRow(c)) == c
  {
  }

  /** `getByClient(id, page = 1, limit = 50, search = '')` against the
      database `db`. A failure anywhere in the body is re-raised with one
      fixed message; an absent or empty result is an empty page without a
      successor; otherwise every row becomes one record, in order, and the
      page is taken to have a successor exactly when it is full. */
  function GetByClient(db: Binds -> QueryOutcome<ClientRow>, id: string,
                       page: int := 1, limit: int := 50, search: string := ""): (r: Result<ClientPage>)
    ensures r.Err? <==> db(QueryBinds(id, page, limit, search)).Failed?
    ensures r.Err? ==> r.message == ClientsError
    ensures r.Ok? ==>
      var rows := Returned(db(QueryBinds(id, page, limit, search)));
      && |r.value.clientes| == |rows|
      && (forall i :: 0 <= i < |rows| ==> ToRow(r.value.clientes[i]) == rows[i])
      && (r.value.hasMore <==> |rows| > 0 && |rows| == limit)
  {
    match db(QueryBinds(id, page, limit, search))
    case Failed => Err(ClientsError)
    case Rows(None) => Ok(ClientPage([], false))
    case Rows(Some(rows)) =>
      if |rows| == 0 then Ok(ClientPage([], false))
      else Ok(ClientPage(seq(|rows|, i requires 0 <= i < |rows| => FromRow(rows[i])), HasMore(|rows|, limit)))
  }

  /** Called with the defaults, the query starts at row 0, asks for 50 rows
      and matches every name (`%%`). */
  lemma DefaultsQueryFirstFifty(db: Binds -> QueryOutcome<ClientRow>, id: string)
    ensures GetByClient(db, id) == GetByClient(db, id, 1, 50, "")
    ensures QueryBinds(id, 1, 50, "") == Binds(id, "%%", 0, 50)
  {
    OffsetSteps(1, 50);
  }

  /** An absent or empty result is `{clientes: [], hasMore: false}`. */
  lemma EmptyResult(db: Binds -> QueryOutcome<ClientRow>, id: string, page: int, limit: int, search: string)
    requires db(QueryBinds(id, page, limit, search)) in {Rows(None), Rows(Some([]))}
    ensures GetByClient(db, id, page, limit, search) == Ok(ClientPage([], false))
  {
  }

  /** The heuristic's blind spot: when the last page is exactly full, it is
      reported as having a successor, and fetching that successor yields an
      empty page that reports none. */
  lemma ExactlyFullLastPage(db: Binds -> QueryOutcome<ClientRow>, id: string, page: int, limit: int,
                            search: string, rows: seq<ClientRow>)
    requires limit > 0 && |rows| == limit
    requires db(QueryBinds(id, page, limit, search)) == Rows(Some(rows))
    requires db(QueryBinds(id, page + 1, limit, search)) == Rows(Some([]))
    ensures GetByClient(db, id, page, limit, search).Ok?
    ensures GetByClient(db, id, page, limit, search).value.hasMore
    ensures GetByClient(db, id, page + 1, limit, search) == Ok(ClientPage([], false))
  {
  }
}
