/** The client list of the home screen: a paginated, searchable list whose
    pages are fetched one at a time, page 1 replacing the list and later
    pages extending it. The screen's six state variables are the fields of
    `HomeScreen`; each event handler is one method. Events run one after
    another: a fetch is a start, then (once the reply is in) a success or a
    failure. */
module ClientListScreen {
  import opened Results

  datatype Cliente = Cliente(codigo: string, razaoSoc: string, endereco: string,
                             cidade: string, contato: string)

  /** `response.data.user`: one page of clients and whether more follow. */
  datatype ClientPage = ClientPage(clientes: seq<Cliente>, hasMore: bool)

  /** What the request ended in: an exception, or an HTTP reply whose body may
      lack `user`. */
  datatype Response = Thrown | Response(status: int, user: Option<ClientPage>)

  /** The query parameters of the `GET /clients` request. */
  datatype Request = Request(id: int, page: int, search: string)

  /** The sales representative id the screen sends with every request. */
  const VendorId := 239

  /** A reply is taken as a success exactly when its status is 200 and it
      carries `user`; everything else goes to the error path. */
  predicate Succeeded(resp: Response)
  {
    resp.Response? && resp.status == 200 && resp.user.Some?
  }

  /** `handleLoadMore`'s guard. */
  predicate CanLoadMore(loading: bool, hasMore: bool, isFetching: bool)
  {
    !loading && hasMore && !isFetching
  }

  class HomeScreen {
    var clientes: seq<Cliente>
    var loading: bool
    var searchQuery: string
    var page: int
    var hasMore: bool
    var isFetching: bool

    /** Pages count from 1, and `loading` is raised and lowered together with
        `isFetching`. */
    ghost predicate Valid()
      reads this
    {
      page >= 1 && loading == isFetching
    }

    constructor ()
      ensures Valid()
      ensures clientes == [] && !loading && searchQuery == "" && page == 1
      ensures hasMore && !isFetching
    {
      clientes, loading, searchQuery, page := [], false, "", 1;
      hasMore, isFetching := true, false;
    }

    /** The synchronous start of `fetchClientes(pageNumber, query)`: refused
        while a fetch is in flight or once the list is exhausted; otherwise
        both flags are raised and one request is issued. */
    method StartFetch(pageNumber: int, query: string) returns (req: Option<Request>)
      requires Valid()
      modifies this
      ensures Valid()
      ensures old(isFetching || !hasMore) ==> req == None && unchanged(this)
      ensures !old(isFetching || !hasMore) ==>
        && req == Some(Request(VendorId, pageNumber, query))
        && isFetching && loading
        && clientes == old(clientes) && hasMore == old(hasMore)
        && page == old(page) && searchQuery == old(searchQuery)
    {
      if isFetching || !hasMore {
        return None;
      }
      isFetching := true;
      loading := true;
      req := Some(Request(VendorId, pageNumber, query));
    }

    /** A successful reply for `pageNumber`: page 1 replaces the list, any
        other page is appended after the unchanged list; `hasMore` comes from
        the reply; both flags are lowered. */
    method FetchSucceeded(pageNumber: int, reply: ClientPage)
      requires Valid() && isFetching
      modifies this
      ensures Valid()
      ensures clientes == if pageNumber == 1 then reply.clientes else old(clientes) + reply.clientes
      ensures hasMore == reply.hasMore
      ensures !loading && !isFetching
      ensures page == old(page) && searchQuery == old(searchQuery)
    {
      if pageNumber == 1 {
        clientes := reply.clientes;
      } else {
        clientes := clientes + reply.clientes;
      }
      hasMore := reply.hasMore;
      loading := false;
      isFetching := false;
    }

    /** A failed request: the list and `hasMore` stay as they were; only the
        flags are lowered, so a retry is possible. */
    method FetchFailed()
      requires Valid() && isFetching
      modifies this
      ensures Valid()
      ensures clientes == old(clientes) && hasMore == old(hasMore)
      ensures !loading && !isFetching
      ensures page == old(page) && searchQuery == old(searchQuery)
    {
      loading := false;
      isFetching := false;
    }

    /** The end of `fetchClientes`: success or the error path, and `finally`
        lowers both flags either way. */
    method Complete(pageNumber: int, resp: Response)
      requires Valid() && isFetching
      modifies this
      ensures Valid()
      ensures Succeeded(resp) ==>
        && clientes == (if pageNumber == 1 then resp.user.value.clientes
                        else old(clientes) + resp.user.value.clientes)
        && hasMore == resp.user.value.hasMore
      ensures !Succeeded(resp) ==> clientes == old(clientes) && hasMore == old(hasMore)
      ensures !loading && !isFetching
      ensures page == old(page) && searchQuery == old(searchQuery)
    {
      if Succeeded(resp) {
        FetchSucceeded(pageNumber, resp.user.value);
      } else {
        FetchFailed();
      }
    }

    /** The whole of `fetchClientes(pageNumber, query)`, `resp` standing for
        whatever the request would end in; it is consulted only when a request
        is issued. */
    method FetchClientes(pageNumber: int, query: string, resp: Response) returns (req: Option<Request>)
      requires Valid()
      modifies this
      ensures Valid()
      ensures old(isFetching || !hasMore) ==> req == None && unchanged(this)
      ensures !old(isFetching || !hasMore) ==>
        && req == Some(Request(VendorId, pageNumber, query))
        && !loading && !isFetching
        && page == old(page) && searchQuery == old(searchQuery)
        && (Succeeded(resp) ==>
              && clientes == (if pageNumber == 1 then resp.user.value.clientes
                              else old(clientes) + resp.user.value.clientes)
              && hasMore == resp.user.value.hasMore)
        && (!Succeeded(resp) ==> clientes == old(clientes) && hasMore == old(hasMore))
    {
      req := StartFetch(pageNumber, query);
      if req.Some? {
        Complete(pageNumber, resp);
      }
    }

    /** The effect that runs whenever `page` or `searchQuery` changes: a fetch
        of the current page with the current query. */
    method OnPageOrSearchChange(resp: Response) returns (req: Option<Request>)
      requires Valid()
      modifies this
      ensures Valid()
      ensures old(isFetching || !hasMore) ==> req == None && unchanged(this)
      ensures !old(isFetching || !hasMore) ==>
        && req == Some(Request(VendorId, old(page), old(searchQuery)))
        && !loading && !isFetching
        && page == old(page) && searchQuery == old(searchQuery)
        && (Succeeded(resp) ==>
              && clientes == (if old(page) == 1 then resp.user.value.clientes
                              else old(clientes) + resp.user.value.clientes)
              && hasMore == resp.user.value.hasMore)
        && (!Succeeded(resp) ==> clientes == old(clientes) && hasMore == old(hasMore))
    {
      req := FetchClientes(page, searchQuery, resp);
    }

    /** `handleLoadMore`: the page advances by exactly one when nothing is
        loading, more pages exist and no fetch is in flight. */
    method HandleLoadMore()
      requires Valid()
      modifies this
      ensures Valid()
      ensures page == if CanLoadMore(old(loading), old(hasMore), old(isFetching)) then old(page) + 1 else old(page)
      ensures clientes == old(clientes) && loading == old(loading) && searchQuery == old(searchQuery)
      ensures hasMore == old(hasMore) && isFetching == old(isFetching)
    {
      if CanLoadMore(loading, hasMore, isFetching) {
        page := page + 1;
      }
    }

    /** `handleSearch`: a new query restarts from page 1. The list and
        `hasMore` are left as they are. */
    method HandleSearch(query: string)
      requires Valid()
      modifies this
      ensures Valid()
      ensures searchQuery == query && page == 1
      ensures clientes == old(clientes) && hasMore == old(hasMore)
      ensures loading == old(loading) && isFetching == old(isFetching)
    {
      searchQuery := query;
      page := 1;
    }
  }

  /** Loading page 1 on a fresh screen, scrolling to the end, then loading
      page 2: the list is page 1's clients followed by page 2's, and the
      second request asks for page 2 with the same query. */
  method TwoPagesAppend(first: seq<Cliente>, second: seq<Cliente>, more: bool)
    returns (shown: seq<Cliente>, secondRequest: Option<Request>)
    ensures shown == first + second
    ensures |shown| == |first| + |second|
    ensures secondRequest == Some(Request(VendorId, 2, ""))
  {
    var screen := new HomeScreen();
    var req := screen.OnPageOrSearchChange(Response(200, Some(ClientPage(first, true))));
    screen.HandleLoadMore();
    secondRequest := screen.OnPageOrSearchChange(Response(200, Some(ClientPage(second, more))));
    shown := screen.clientes;
  }

  /** A failed page-2 request leaves page 1's clients and the flags as a
      retry needs them; the identical retry then appends page 2. */
  method FailureThenRetry(first: seq<Cliente>, second: seq<Cliente>, failure: Response)
    returns (afterFailure: seq<Cliente>, retryRequest: Option<Request>, afterRetry: seq<Cliente>)
    requires !Succeeded(failure)
    ensures afterFailure == first
    ensures retryRequest == Some(Request(VendorId, 2, ""))
    ensures afterRetry == first + second
  {
    var screen := new HomeScreen();
    var req := screen.OnPageOrSearchChange(Response(200, Some(ClientPage(first, true))));
    screen.HandleLoadMore();
    req := screen.OnPageOrSearchChange(failure);
    afterFailure := screen.clientes;
    retryRequest := screen.OnPageOrSearchChange(Response(200, Some(ClientPage(second, false))));
    afterRetry := screen.clientes;
  }

  /** While more pages exist, a new search replaces the accumulated list with
      the new query's first page. */
  method SearchReplacesList(first: seq<Cliente>, second: seq<Cliente>, query: string, found: seq<Cliente>)
    returns (searchRequest: Option<Request>, shown: seq<Cliente>)
    ensures searchRequest == Some(Request(VendorId, 1, query))
    ensures shown == found
  {
    var screen := new HomeScreen();
    var req := screen.OnPageOrSearchChange(Response(200, Some(ClientPage(first, true))));
    screen.HandleLoadMore();
    req := screen.OnPageOrSearchChange(Response(200, Some(ClientPage(second, true))));
    screen.HandleSearch(query);
    searchRequest := screen.OnPageOrSearchChange(Response(200, Some(ClientPage(found, false))));
    shown := screen.clientes;
  }

  /** Once a reply has reported no further page, neither scrolling nor a new
      search fetches anything: `handleSearch` does not reset `hasMore`, so the
      old list stays on screen under the new query. */
  method ExhaustedListStaysBlocked(first: seq<Cliente>, query: string, resp: Response)
    returns (loadMorePage: int, searchRequest: Option<Request>, shown: seq<Cliente>)
    ensures loadMorePage == 1
    ensures searchRequest == None
    ensures shown == first
  {
    var screen := new HomeScreen();
    var req := screen.OnPageOrSearchChange(Response(200, Some(ClientPage(first, false))));
    screen.HandleLoadMore();
    loadMorePage := screen.page;
    screen.HandleSearch(query);
    searchRequest := screen.OnPageOrSearchChange(resp);
    shown := screen.clientes;
  }
}
