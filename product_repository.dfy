/** `getproduct`: the product list, read from the database by a fixed query
    (active products, at most fifteen rows) and mapped from positional rows
    to named records. The price stays the formatted string the database
    returns. */
module ProductRepository {
  import opened Results
  import opened Paging

  /** A result row: the six selected columns, in query order. */
  type ProductRow = (string, string, string, string, string, string)

  datatype Product = Product(
    codigo: string, descricao: string, unidade: string, familia: string,
    estoque: string, preco: string)

  datatype ProductPage = ProductPage(itens: seq<Product>, hasMore: bool)

  const ProductError := "Erro ao buscar produto no banco de dados."

  /** The query's `rownum <= 15`. */
  const MaxRows := 15

  /** The assumption on the database that the query's row limit gives. */
  predicate WithinRowLimit(db: QueryOutcome<ProductRow>)
  {
    db.Rows? ==> |Returned(db)| <= MaxRows
  }

  function FromRow(row: ProductRow): (p: Product)
    ensures ToRow(p) == row
  {
    Product(row.0, row.1, row.2, row.3, row.4, row.5)
  }

  function ToRow(p: Product): (row: ProductRow)
  {
    (p.codigo, p.descricao, p.unidade, p.familia, p.estoque, p.preco)
  }

  lemma RowRoundTrip(row: ProductRow, p: Product)
    ensures ToRow(FromRow(row)) == row
    ensures FromRow(ToRow(p)) == p
  {
  }

  /** `getproduct(id, page = 1, limit = 50)`, the query having produced `db`.
      The query has no bind parameters, so `db` does not depend on the
      arguments; `id` and `page` are accepted and ignored (the offset the
      source computes from them is never used). */
  function GetProduct(db: QueryOutcome<ProductRow>, id: string,
                      page: int := 1, limit: int := 50): (r: Result<ProductPage>)
    ensures r.Err? <==> db.Failed?
    ensures r.Err? ==> r.message == ProductError
    ensures r.Ok? ==>
      && |r.value.itens| == |Returned(db)|
      && (forall i :: 0 <= i < |Returned(db)| ==> ToRow(r.value.itens[i]) == Returned(db)[i])
      && (r.value.hasMore <==> |Returned(db)| > 0 && |Returned(db)| == limit)
  {
    match db
    case Failed => Err(ProductError)
    case Rows(None) => Ok(ProductPage([], false))
    case Rows(Some(rows)) =>
      if |rows| == 0 then Ok(ProductPage([], false))
      else Ok(ProductPage(seq(|rows|, i requires 0 <= i < |rows| => FromRow(rows[i])), HasMore(|rows|, limit)))
  }

  /** Which products come back does not depend on `id`, `page` or `limit`. */
  lemma ArgumentsIgnored(db: QueryOutcome<ProductRow>, id1: string, page1: int, limit1: int,
                         id2: string, page2: int, limit2: int)
    ensures GetProduct(db, id1, page1, limit1).Ok? == GetProduct(db, id2, page2, limit2).Ok?
    ensures GetProduct(db, id1, page1, limit1).Ok? ==>
      GetProduct(db, id1, page1, limit1).value.itens == GetProduct(db, id2, page2, limit2).value.itens
    ensures limit1 == limit2 ==> GetProduct(db, id1, page1, limit1) == GetProduct(db, id2, page2, limit2)
  {
  }

  /** An absent or empty result is `{itens: [], hasMore: false}`. */
  lemma EmptyResult(db: QueryOutcome<ProductRow>, id: string, page: int, limit: int)
    requires db in {Rows(None), Rows(Some([]))}
    ensures GetProduct(db, id, page, limit) == Ok(ProductPage([], false))
  {
  }

  /** With at most fifteen rows, any limit above fifteen (the default 50
      among them) never reports a further page. */
  lemma NeverMoreAboveRowLimit(db: QueryOutcome<ProductRow>, id: string, page: int, limit: int)
    requires WithinRowLimit(db) && limit > MaxRows
    ensures GetProduct(db, id, page, limit).Ok? ==> !GetProduct(db, id, page, limit).value.hasMore
    ensures GetProduct(db, id).Ok? ==> !GetProduct(db, id).value.hasMore
  {
  }
}
